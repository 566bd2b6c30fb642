/** Capacity fade: lithium loss by the calendar and by throughput, material loss by cycles. */
module Aging {
  import opened Prelude
  import opened Chemistry

  /** The two library functions the laws use, with the only facts about them that are needed. */
  datatype Math = Math(sqrt: real -> real, exp: real -> real) {
    ghost predicate Lawful() {
      && (forall x: real :: x >= 0.0 ==> sqrt(x) >= 0.0 && sqrt(x) * sqrt(x) == x)
      && (forall x: real :: exp(x) > 0.0)
      && (forall x: real, y: real :: x <= y ==> exp(x) <= exp(y))
    }
  }

  datatype Age = Age(lli: real, lam: real, throughput: real, elapsed: real, cycles: nat, lastDod: real)

  const NEW_CELL := Age(0.0, 0.0, 0.0, 0.0, 0, 0.0)

  function CalendarDelta(m: Math, c: Chem, elapsed: real, dt: real, soc: real, tempC: real): real {
    var sqrtTerm := 0.5 / Max(m.sqrt(elapsed), 1.0);
    c.kCal * dt * sqrtTerm * m.sqrt(Max(soc, 0.0)) * m.exp((tempC - 25.0) / 12.0)
  }

  function StepCalendar(m: Math, c: Chem, age: Age, dt: real, soc: real, tempC: real): Age {
    var elapsed := age.elapsed + dt;
    age.(elapsed := elapsed, lli := age.lli + CalendarDelta(m, c, elapsed, dt, soc, tempC))
  }

  function ThroughputDelta(m: Math, c: Chem, total: real, d: real): real
    requires c.capacity > 0.0
  {
    var delta := c.kCyc * m.sqrt(total / c.capacity)
                 - c.kCyc * m.sqrt(Max(0.0, total - Abs(d)) / c.capacity);
    Max(delta, 0.0) * c.swelling
  }

  function StepThroughput(m: Math, c: Chem, age: Age, d: real): Age
    requires c.capacity > 0.0
  {
    var total := age.throughput + Abs(d);
    age.(throughput := total, lli := age.lli + ThroughputDelta(m, c, total, d))
  }

  function OnCycleComplete(c: Chem, age: Age, dod: real): Age {
    age.(cycles := age.cycles + 1, lastDod := dod, lam := age.lam + c.kLam * (dod * dod))
  }

  function Soh(c: Chem, age: Age): real
    requires c.capacity > 0.0
  {
    Max(0.0, Min(1.0, (c.capacity - age.lli - age.lam) / c.capacity))
  }

  // ---- One event ----------------------------------------------------------------------------

  datatype Event =
    | Calendar(dt: real, soc: real, tempC: real)
    | Throughput(ah: real)
    | Cycle(dod: real)

  function Apply(m: Math, c: Chem, age: Age, e: Event): Age
    requires c.capacity > 0.0
  {
    match e
    case Calendar(dt, soc, t) => StepCalendar(m, c, age, dt, soc, t)
    case Throughput(d) => StepThroughput(m, c, age, d)
    case Cycle(dod) => OnCycleComplete(c, age, dod)
  }

  function Run(m: Math, c: Chem, age: Age, es: seq<Event>): Age
    requires c.capacity > 0.0
  {
    if es == [] then age else Apply(m, c, Run(m, c, age, es[..|es| - 1]), es[|es| - 1])
  }

  /** The lithium lost to the calendar along a run, on its own. */
  function CalendarLoss(m: Math, c: Chem, age: Age, es: seq<Event>): real
    requires c.capacity > 0.0
  {
    if es == [] then 0.0
    else
      var before := Run(m, c, age, es[..|es| - 1]);
      var e := es[|es| - 1];
      CalendarLoss(m, c, age, es[..|es| - 1])
      + if e.Calendar? then CalendarDelta(m, c, before.elapsed + e.dt, e.dt, e.soc, e.tempC) else 0.0
  }

  ghost predicate Physical(es: seq<Event>, tMax: real) {
    forall e | e in es :: e.Calendar? ==> e.dt >= 0.0 && 0.0 <= e.soc <= 1.0 && e.tempC <= tMax
  }

  // ---- Square roots ---------------------------------------------------------------------------

  lemma SqrtMonotone(m: Math, x: real, y: real)
    requires m.Lawful() && 0.0 <= x <= y
    ensures 0.0 <= m.sqrt(x) <= m.sqrt(y)
  {
    SquaresOrder(m.sqrt(x), m.sqrt(y));
  }

  lemma SqrtAtMostOne(m: Math, x: real)
    requires m.Lawful() && 0.0 <= x <= 1.0
    ensures 0.0 <= m.sqrt(x) <= 1.0
  {
    SquaresOrder(m.sqrt(x), 1.0);
  }

  /** dt * 0.5 / max(sqrt(t + dt), 1) never exceeds the growth of sqrt over the tick. */
  lemma TickUnderSqrtGrowth(m: Math, t: real, dt: real)
    requires m.Lawful() && t >= 0.0 && dt >= 0.0
    ensures 0.0 <= dt * (0.5 / Max(m.sqrt(t + dt), 1.0)) <= m.sqrt(t + dt) - m.sqrt(t)
  {
    SqrtMonotone(m, t, t + dt);
    GrowthArithmetic(m.sqrt(t), m.sqrt(t + dt), dt, Max(m.sqrt(t + dt), 1.0));
  }

  lemma GrowthArithmetic(a: real, b: real, dt: real, d: real)
    requires 0.0 <= a <= b <= d && d >= 1.0 && b * b - a * a == dt >= 0.0
    ensures 0.0 <= dt * (0.5 / d) <= b - a
  {
    var q := 0.5 / d;
    assert q * d == 0.5 && q > 0.0;
    Scale(b - a, b + a, 2.0 * d);
    calc {
      dt;
    ==
      (b - a) * (b + a);
    <=
      (b - a) * (2.0 * d);
    }
    Scale(q, dt, (b - a) * (2.0 * d));
    Scale(q, 0.0, dt);
    calc {
      q * ((b - a) * (2.0 * d));
    ==
      (b - a) * 2.0 * (q * d);
    ==
      b - a;
    }
  }

  // ---- The laws -------------------------------------------------------------------------------

  /** What a cell has lost to throughput, as a function of the total throughput alone. */
  function ThroughputLaw(m: Math, c: Chem, total: real): real
    requires c.capacity > 0.0
  {
    c.kCyc * c.swelling * m.sqrt(total / c.capacity)
  }

  /** The most a cell can have lost to the calendar by a given time, at up to tMax. */
  function CalendarBudget(m: Math, c: Chem, tMax: real, elapsed: real): real {
    c.kCal * m.exp((tMax - 25.0) / 12.0) * m.sqrt(elapsed)
  }

  lemma CalendarDeltaBounds(m: Math, c: Chem, t: real, dt: real, soc: real, tempC: real, tMax: real)
    requires m.Lawful() && Sound(c) && t >= 0.0 && dt >= 0.0 && 0.0 <= soc <= 1.0 && tempC <= tMax
    ensures 0.0 <= CalendarDelta(m, c, t + dt, dt, soc, tempC)
                <= CalendarBudget(m, c, tMax, t + dt) - CalendarBudget(m, c, tMax, t)
  {
    TickUnderSqrtGrowth(m, t, dt);
    SqrtAtMostOne(m, soc);
    DivideMonotone(tempC - 25.0, tMax - 25.0, 12.0);
    CalendarAssembles(m, c, t, dt, soc, tempC, tMax);
  }

  lemma CalendarAssembles(m: Math, c: Chem, t: real, dt: real, soc: real, tempC: real, tMax: real)
    requires c.kCal >= 0.0 && 0.0 <= soc && 0.0 <= m.sqrt(soc) <= 1.0
    requires 0.0 <= dt * (0.5 / Max(m.sqrt(t + dt), 1.0)) <= m.sqrt(t + dt) - m.sqrt(t)
    requires 0.0 <= m.exp((tempC - 25.0) / 12.0) <= m.exp((tMax - 25.0) / 12.0)
    ensures 0.0 <= CalendarDelta(m, c, t + dt, dt, soc, tempC)
                <= CalendarBudget(m, c, tMax, t + dt) - CalendarBudget(m, c, tMax, t)
  {
    assert Max(soc, 0.0) == soc;
    CalendarArithmetic(c.kCal, dt, 0.5 / Max(m.sqrt(t + dt), 1.0), m.sqrt(soc),
                       m.exp((tempC - 25.0) / 12.0), m.exp((tMax - 25.0) / 12.0), m.sqrt(t), m.sqrt(t + dt));
  }

  lemma CalendarArithmetic(k: real, dt: real, q: real, s: real, e: real, eMax: real, a: real, b: real)
    requires k >= 0.0 && 0.0 <= dt * q <= b - a && 0.0 <= s <= 1.0 && 0.0 <= e <= eMax
    ensures 0.0 <= k * dt * q * s * e <= k * eMax * b - k * eMax * a
  {
    var step := dt * q;
    Scale(step, s, 1.0);
    Scale(step, 0.0, s);
    ProductsOrdered(step * s, b - a, e, eMax);
    Scale(k, 0.0, step * s * e);
    Scale(k, step * s * e, (b - a) * eMax);
    assert k * dt * q * s * e == k * (step * s * e);
    assert k * ((b - a) * eMax) == k * eMax * b - k * eMax * a;
  }

  lemma ThroughputArithmetic(k: real, w: real, x: real, y: real)
    requires k >= 0.0 && w >= 0.0 && x <= y
    ensures (k * y - k * x) * w == k * w * y - k * w * x >= 0.0
    ensures k * y - k * x >= 0.0
  {
    Scale(k, x, y);
    Scale(w, 0.0, k * y - k * x);
  }

  lemma ThroughputDeltaIs(m: Math, c: Chem, total: real, d: real)
    requires m.Lawful() && Sound(c) && total >= 0.0
    ensures ThroughputDelta(m, c, total + Abs(d), d)
            == ThroughputLaw(m, c, total + Abs(d)) - ThroughputLaw(m, c, total) >= 0.0
  {
    var x, y := total / c.capacity, (total + Abs(d)) / c.capacity;
    DivideMonotone(0.0, total, c.capacity);
    DivideMonotone(total, total + Abs(d), c.capacity);
    SqrtMonotone(m, x, y);
    assert Max(0.0, total + Abs(d) - Abs(d)) == total;
    ThroughputArithmetic(c.kCyc, c.swelling, m.sqrt(x), m.sqrt(y));
  }

  /** Throughput loss telescopes: however the charge is split into ticks, and whatever ticks
      of the other kinds come between, it is a function of the total throughput alone. */
  lemma {:induction false} ThroughputLawIsPathIndependent(m: Math, c: Chem, age: Age, es: seq<Event>)
    requires m.Lawful() && Sound(c) && age.throughput >= 0.0
    ensures var end := Run(m, c, age, es);
            && end.throughput >= age.throughput
            && end.lli - age.lli == CalendarLoss(m, c, age, es)
                                    + (ThroughputLaw(m, c, end.throughput) - ThroughputLaw(m, c, age.throughput))
  {
    if es != [] {
      ThroughputLawIsPathIndependent(m, c, age, es[..|es| - 1]);
      if es[|es| - 1].Throughput? {
        ThroughputDeltaIs(m, c, Run(m, c, age, es[..|es| - 1]).throughput, es[|es| - 1].ah);
      }
    }
  }

  /** Calendar loss is bounded by the square root of the elapsed time for every tick pattern. */
  lemma {:induction false} CalendarLossBounded(m: Math, c: Chem, age: Age, es: seq<Event>, tMax: real)
    requires m.Lawful() && Sound(c) && age.elapsed >= 0.0 && Physical(es, tMax)
    ensures Run(m, c, age, es).elapsed >= age.elapsed
    ensures 0.0 <= CalendarLoss(m, c, age, es)
                <= CalendarBudget(m, c, tMax, Run(m, c, age, es).elapsed) - CalendarBudget(m, c, tMax, age.elapsed)
  {
    if es != [] {
      var front, e := es[..|es| - 1], es[|es| - 1];
      assert forall e | e in front :: e in es;
      CalendarLossBounded(m, c, age, front, tMax);
      if e.Calendar? {
        assert e in es;
        CalendarDeltaBounds(m, c, Run(m, c, age, front).elapsed, e.dt, e.soc, e.tempC, tMax);
      }
    }
  }

  // ---- At a constant charge and temperature ------------------------------------------------------

  /** How fast a cell loses lithium at rest: once for its chemistry, its charge and its temperature. */
  function CalendarRate(m: Math, c: Chem, soc: real, tempC: real): real {
    c.kCal * m.sqrt(Max(soc, 0.0)) * m.exp((tempC - 25.0) / 12.0)
  }

  /** After the first second a tick is worth at least the growth of sqrt over the next one. */
  lemma TickOverSqrtGrowth(m: Math, t: real, dt: real)
    requires m.Lawful() && t >= 0.0 && dt >= 0.0 && t + dt >= 1.0
    ensures dt * (0.5 / Max(m.sqrt(t + dt), 1.0)) >= m.sqrt(t + dt + dt) - m.sqrt(t + dt)
  {
    SqrtMonotone(m, t + dt, t + dt + dt);
    SqrtAtLeastOne(m, t + dt);
    GrowthBelow(m.sqrt(t + dt), m.sqrt(t + dt + dt), dt);
  }

  lemma SqrtAtLeastOne(m: Math, x: real)
    requires m.Lawful() && x >= 1.0
    ensures m.sqrt(x) >= 1.0
  {
    SquaresOrder(1.0, m.sqrt(x));
  }

  lemma GrowthBelow(b: real, e: real, dt: real)
    requires 1.0 <= b <= e && e * e - b * b == dt
    ensures dt * (0.5 / b) >= e - b
  {
    var q := 0.5 / b;
    assert q * b == 0.5 && q > 0.0;
    Scale(e - b, 2.0 * b, e + b);
    assert dt == (e - b) * (e + b);
    Scale(q, (e - b) * (2.0 * b), dt);
    assert q * ((e - b) * (2.0 * b)) == (e - b) * 2.0 * (q * b);
  }

  lemma CalendarDeltaIs(m: Math, c: Chem, t: real, dt: real, soc: real, tempC: real)
    ensures CalendarDelta(m, c, t, dt, soc, tempC)
            == Part(CalendarRate(m, c, soc, tempC), dt * (0.5 / Max(m.sqrt(t), 1.0)))
  {
    var s, e, x := m.sqrt(Max(soc, 0.0)), m.exp((tempC - 25.0) / 12.0), 0.5 / Max(m.sqrt(t), 1.0);
    assert c.kCal * dt * x * s * e == c.kCal * s * e * (dt * x);
  }

  function Resting(dt: real, soc: real, tempC: real, n: nat): seq<Event> {
    seq(n, _ => Calendar(dt, soc, tempC))
  }

  /** What the square-root law supposes of the clock. */
  ghost predicate Underway(m: Math, c: Chem, elapsed: real, dt: real) {
    m.Lawful() && Sound(c) && elapsed >= 0.0 && dt >= 0.0 && elapsed + dt >= 1.0
  }

  lemma RestingTick(m: Math, c: Chem, age: Age, dt: real, soc: real, tempC: real)
    requires Underway(m, c, age.elapsed, dt)
    ensures var v, rate := StepCalendar(m, c, age, dt, soc, tempC), CalendarRate(m, c, soc, tempC);
            && v.elapsed == age.elapsed + dt
            && Part(rate, m.sqrt(v.elapsed + dt) - m.sqrt(v.elapsed)) <= v.lli - age.lli
            && v.lli - age.lli <= Part(rate, m.sqrt(v.elapsed) - m.sqrt(age.elapsed))
  {
    hide Part, CalendarRate, CalendarDelta;
    var t, rate := age.elapsed, CalendarRate(m, c, soc, tempC);
    var x := dt * (0.5 / Max(m.sqrt(t + dt), 1.0));
    RateIsNonNegative(m, c, soc, tempC);
    CalendarDeltaIs(m, c, t + dt, dt, soc, tempC);
    TickUnderSqrtGrowth(m, t, dt);
    TickOverSqrtGrowth(m, t, dt);
    PartMonotone(x, m.sqrt(t + dt) - m.sqrt(t), rate);
    PartMonotone(m.sqrt(t + dt + dt) - m.sqrt(t + dt), x, rate);
  }

  /** Growth between the readings a, b, c of a clock. */
  lemma Telescopes(rate: real, a: real, b: real, c: real)
    ensures Part(rate, c - a) == Part(rate, b - a) + Part(rate, c - b)
  {
  }

  /** The square-root law, both ways: n ticks of dt at one charge and temperature cost the rate times
      the growth of sqrt(t) over them, give or take the shift by one tick. */
  lemma {:induction false} SqrtLaw(m: Math, c: Chem, age: Age, dt: real, soc: real, tempC: real, n: nat)
    requires c.capacity > 0.0 && Underway(m, c, age.elapsed, dt)
    ensures var end, rate := Run(m, c, age, Resting(dt, soc, tempC, n)), CalendarRate(m, c, soc, tempC);
            && end.elapsed == age.elapsed + Part(dt, n as real)
            && Part(rate, m.sqrt(end.elapsed + dt) - m.sqrt(age.elapsed + dt)) <= end.lli - age.lli
            && end.lli - age.lli <= Part(rate, m.sqrt(end.elapsed) - m.sqrt(age.elapsed))
    decreases n
  {
    hide *;
    var rate := CalendarRate(m, c, soc, tempC);
    NoTicks(m, c, age, dt, soc, tempC);
    if n > 0 {
      SqrtLaw(m, c, age, dt, soc, tempC, n - 1);
      var before := Run(m, c, age, Resting(dt, soc, tempC, n - 1));
      OneTickMore(m, c, age, dt, soc, tempC, n);
      StillUnderway(m, c, age.elapsed, before.elapsed, dt, n - 1);
      RestingTick(m, c, before, dt, soc, tempC);
      var t0, t1, t2, t3 := age.elapsed, before.elapsed, before.elapsed + dt, before.elapsed + dt + dt;
      Telescopes(rate, m.sqrt(t0), m.sqrt(t1), m.sqrt(t2));
      Telescopes(rate, m.sqrt(t0 + dt), m.sqrt(t2), m.sqrt(t3));
    }
  }

  lemma StillUnderway(m: Math, c: Chem, elapsed: real, later: real, dt: real, n: nat)
    requires Underway(m, c, elapsed, dt) && later == elapsed + Part(dt, n as real)
    ensures Underway(m, c, later, dt)
  {
    PartNonNegative(dt, n as real);
  }

  lemma NoTicks(m: Math, c: Chem, age: Age, dt: real, soc: real, tempC: real)
    requires c.capacity > 0.0
    ensures Run(m, c, age, Resting(dt, soc, tempC, 0)) == age
    ensures Part(dt, 0 as real) == 0.0 && Part(CalendarRate(m, c, soc, tempC), 0.0) == 0.0
  {
    hide CalendarRate;
  }

  lemma OneTickMore(m: Math, c: Chem, age: Age, dt: real, soc: real, tempC: real, n: nat)
    requires c.capacity > 0.0 && n > 0
    ensures Run(m, c, age, Resting(dt, soc, tempC, n))
            == StepCalendar(m, c, Run(m, c, age, Resting(dt, soc, tempC, n - 1)), dt, soc, tempC)
    ensures Part(dt, n as real) == Part(dt, (n - 1) as real) + dt
  {
    hide StepCalendar;
    assert Resting(dt, soc, tempC, n)[..n - 1] == Resting(dt, soc, tempC, n - 1);
  }

  lemma RateIsNonNegative(m: Math, c: Chem, soc: real, tempC: real)
    requires m.Lawful() && c.kCal >= 0.0
    ensures CalendarRate(m, c, soc, tempC) >= 0.0
  {
    Scale(c.kCal, 0.0, m.sqrt(Max(soc, 0.0)));
    Scale(m.exp((tempC - 25.0) / 12.0), 0.0, c.kCal * m.sqrt(Max(soc, 0.0)));
  }

  // ---- Totals ------------------------------------------------------------------------------------

  function Charged(es: seq<Event>): real {
    if es == [] then 0.0
    else Charged(es[..|es| - 1]) + var e := es[|es| - 1]; if e.Throughput? then Abs(e.ah) else 0.0
  }

  function Seconds(es: seq<Event>): real {
    if es == [] then 0.0
    else Seconds(es[..|es| - 1]) + var e := es[|es| - 1]; if e.Calendar? then e.dt else 0.0
  }

  function CyclesIn(es: seq<Event>): nat {
    if es == [] then 0 else CyclesIn(es[..|es| - 1]) + if es[|es| - 1].Cycle? then 1 else 0
  }

  /** The depths of all cycles, squared and added up. */
  function Depths(es: seq<Event>): real {
    if es == [] then 0.0
    else Depths(es[..|es| - 1]) + var e := es[|es| - 1]; if e.Cycle? then e.dod * e.dod else 0.0
  }

  /** The depth of the last cycle, if there was one. */
  function LastDepth(es: seq<Event>, before: real): real {
    if es == [] then before
    else if es[|es| - 1].Cycle? then es[|es| - 1].dod
    else LastDepth(es[..|es| - 1], before)
  }

  /** The record counts every ampere-hour, second and cycle once, and material loss is the square law
      over the cycles' depths. */
  lemma {:induction false} RecordCounts(m: Math, c: Chem, age: Age, es: seq<Event>)
    requires c.capacity > 0.0
    ensures var end := Run(m, c, age, es);
            && end.throughput == age.throughput + Charged(es)
            && end.elapsed == age.elapsed + Seconds(es)
            && end.cycles == age.cycles + CyclesIn(es)
            && end.lam == age.lam + Part(c.kLam, Depths(es))
            && end.lastDod == LastDepth(es, age.lastDod)
  {
    hide CalendarDelta, ThroughputDelta;
    if es != [] {
      RecordCounts(m, c, age, es[..|es| - 1]);
      var e := es[|es| - 1];
      PartSums(c.kLam, Depths(es[..|es| - 1]), if e.Cycle? then e.dod * e.dod else 0.0);
    }
  }

  ghost predicate Sane(age: Age) {
    age.throughput >= 0.0 && age.elapsed >= 0.0 && age.lli >= 0.0 && age.lam >= 0.0
  }

  /** State of health is a fraction, and nothing that can happen to a cell raises it. */
  lemma SohNeverRises(m: Math, c: Chem, age: Age, e: Event)
    requires m.Lawful() && Sound(c) && Sane(age)
    requires e.Calendar? ==> e.dt >= 0.0 && 0.0 <= e.soc <= 1.0
    ensures Sane(Apply(m, c, age, e))
    ensures 0.0 <= Soh(c, Apply(m, c, age, e)) <= Soh(c, age) <= 1.0
  {
    match e
    case Calendar(dt, soc, t) =>
      CalendarDeltaBounds(m, c, age.elapsed, dt, soc, t, t);
      LossLowersSoh(c, age, Apply(m, c, age, e));
    case Throughput(d) =>
      ThroughputDeltaIs(m, c, age.throughput, d);
      LossLowersSoh(c, age, Apply(m, c, age, e));
    case Cycle(dod) =>
      SquareLoss(c.kLam, dod);
      LossLowersSoh(c, age, Apply(m, c, age, e));
  }

  ghost predicate TicksForward(es: seq<Event>) {
    forall e | e in es :: e.Calendar? ==> e.dt >= 0.0 && 0.0 <= e.soc <= 1.0
  }

  /** Over any interleaving of ticks and cycles: from each moment of a run to its end, state of
      health has not risen, and it stays a fraction. */
  lemma {:induction false} SohFallsOverRuns(m: Math, c: Chem, age: Age, es: seq<Event>, k: nat)
    requires m.Lawful() && Sound(c) && Sane(age) && TicksForward(es) && k <= |es|
    ensures Sane(Run(m, c, age, es))
    ensures 0.0 <= Soh(c, Run(m, c, age, es)) <= Soh(c, Run(m, c, age, es[..k])) <= 1.0
    decreases |es|
  {
    if es == [] || k == |es| {
      assert es[..k] == es;
    }
    if es != [] {
      var front, e := es[..|es| - 1], es[|es| - 1];
      assert e in es && forall x | x in front :: x in es;
      SohFallsOverRuns(m, c, age, front, if k < |es| then k else 0);
      SohNeverRises(m, c, Run(m, c, age, front), e);
      assert k < |es| ==> front[..k] == es[..k];
    }
  }

  lemma LossLowersSoh(c: Chem, age: Age, after: Age)
    requires c.capacity > 0.0 && after.lli >= age.lli && after.lam >= age.lam
    ensures 0.0 <= Soh(c, after) <= Soh(c, age) <= 1.0
  {
    DivideMonotone(c.capacity - after.lli - after.lam, c.capacity - age.lli - age.lam, c.capacity);
  }

  lemma SquareLoss(k: real, d: real)
    requires k >= 0.0
    ensures k * (d * d) >= 0.0
  {
    assert d * d >= 0.0;
  }
}
