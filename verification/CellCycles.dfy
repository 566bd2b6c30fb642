/**
 What a cycle is, told from the course of the state of charge alone: it leaves the top below 95 %,
 falls more than half of the range from there, and comes back above 95 %.  The detector, which sees
 one value at a time, counts exactly these.
 */
module CellCycles {
  import opened Models
  import opened Chemistry
  import opened Aging
  import opened CellModel
  import opened CellProofs

  // ---- Excursions in a course of values ------------------------------------------------------------

  /** Of the first k values, every one below 95 % was followed by one above. */
  ghost predicate AtTop(s: seq<real>, k: nat)
    requires k <= |s|
  {
    forall i | 0 <= i < k && s[i] < 0.95 :: exists x :: i < x < k && s[x] > 0.95
  }

  /** From j on, which left the top, until before k nothing was above 95 %. */
  ghost predicate Excursion(s: seq<real>, j: nat, k: nat) {
    && j < k <= |s| && s[j] < 0.95 && AtTop(s, j)
    && forall i | j <= i < k :: s[i] <= 0.95
  }

  /** Value number k ends an excursion that fell by more than half of the range. */
  ghost predicate EndsCycle(s: seq<real>, k: nat) {
    && k < |s| && s[k] > 0.95
    && exists j: nat, b: nat :: j <= b < k && Excursion(s, j, k) && s[j] - s[b] > 0.5
  }

  ghost function CyclesOf(s: seq<real>): set<nat> {
    set k: nat | k < |s| && EndsCycle(s, k)
  }

  /** The detector's memory agrees with the course so far. */
  ghost predicate Remembers(c: Cell, s: seq<real>) {
    && (c.atTop <==> AtTop(s, |s|))
    && (!c.atTop ==> exists j: nat, b: nat :: j <= b < |s| && IsLowest(c, s, j, b))
  }

  ghost predicate IsLowest(c: Cell, s: seq<real>, j: nat, b: nat) {
    && Excursion(s, j, |s|) && c.top == s[j]
    && j <= b < |s| && c.bottom == s[b] && forall i | j <= i < |s| :: s[b] <= s[i]
  }

  lemma PastStays(s: seq<real>, x: real, j: nat, k: nat)
    requires k <= |s|
    ensures AtTop(s + [x], k) <==> AtTop(s, k)
    ensures Excursion(s + [x], j, k) <==> Excursion(s, j, k)
  {
    var t := s + [x];
    assert forall i | 0 <= i < |s| :: t[i] == s[i];
    SameTop(s, t, k);
    if j < k { SameTop(s, t, j); }
  }

  lemma SameTop(s: seq<real>, t: seq<real>, k: nat)
    requires k <= |s| <= |t| && forall i | 0 <= i < |s| :: t[i] == s[i]
    ensures AtTop(t, k) <==> AtTop(s, k)
  {
    if AtTop(s, k) {
      forall i | 0 <= i < k && t[i] < 0.95 ensures exists x :: i < x < k && t[x] > 0.95 {
        assert s[i] < 0.95;
        var x :| i < x < k && s[x] > 0.95;
        assert t[x] > 0.95;
      }
    }
    if AtTop(t, k) {
      forall i | 0 <= i < k && s[i] < 0.95 ensures exists x :: i < x < k && s[x] > 0.95 {
        assert t[i] < 0.95;
        var x :| i < x < k && t[x] > 0.95;
        assert s[x] > 0.95;
      }
    }
  }

  lemma PastCycles(s: seq<real>, x: real, k: nat)
    requires k < |s|
    ensures EndsCycle(s + [x], k) <==> EndsCycle(s, k)
  {
    hide Excursion;
    forall j: nat { PastStays(s, x, j, k); }
    if EndsCycle(s, k) {
      var j: nat, b: nat :| j <= b < k && Excursion(s, j, k) && s[j] - s[b] > 0.5;
      assert Excursion(s + [x], j, k) && (s + [x])[j] - (s + [x])[b] > 0.5;
    }
    if EndsCycle(s + [x], k) {
      var j: nat, b: nat :| j <= b < k && Excursion(s + [x], j, k) && (s + [x])[j] - (s + [x])[b] > 0.5;
      assert Excursion(s, j, k) && s[j] - s[b] > 0.5;
    }
  }

  lemma OneMoreValue(s: seq<real>, x: real)
    ensures CyclesOf(s + [x]) == CyclesOf(s) + (if EndsCycle(s + [x], |s|) then {|s|} else {})
    ensures |CyclesOf(s + [x])| == |CyclesOf(s)| + if EndsCycle(s + [x], |s|) then 1 else 0
  {
    hide EndsCycle;
    forall k: nat | k < |s| { PastCycles(s, x, k); }
  }

  /** While at the top there is no excursion, and below it only one. */
  lemma OneExcursion(s: seq<real>, i: nat, j: nat, k: nat)
    requires Excursion(s, i, k)
    ensures !AtTop(s, k)
    ensures Excursion(s, j, k) ==> i == j
  {
  }

  // ---- One detection ---------------------------------------------------------------------------------

  /** The excursion under way left the top at j and was lowest at b. */
  ghost predicate DeepestFall(s: seq<real>, j: nat, b: nat) {
    j <= b < |s| && Excursion(s, j, |s|) && forall i | j <= i < |s| :: s[b] <= s[i]
  }

  /** The detector, on the next value: if it ends an excursion of more than half of the range, the
      cycle is counted, at the whole depth of the fall; nothing else touches the aging record. */
  lemma DetectRemembers(c: Cell, s: seq<real>)
    requires Remembers(c, s)
    ensures Remembers(DetectCycle(c), s + [c.soc])
    ensures DetectCycle(c).age.cycles == c.age.cycles + if EndsCycle(s + [c.soc], |s|) then 1 else 0
    ensures if EndsCycle(s + [c.soc], |s|)
            then exists j: nat, b: nat :: DeepestFall(s, j, b)
                   && DetectCycle(c).age == OnCycleComplete(c.chem, c.age, s[j] - s[b])
            else DetectCycle(c).age == c.age
  {
    hide AtTop, Excursion, EndsCycle;
    if c.atTop {
      FromTheTop(c, s);
    } else {
      var j: nat, b: nat :| j <= b < |s| && IsLowest(c, s, j, b);
      if c.soc > 0.95 {
        ComesBack(c, s, j, b);
        assert DeepestFall(s, j, b);
      } else {
        StaysBelow(c, s, j, b);
      }
    }
  }

  lemma FromTheTop(c: Cell, s: seq<real>)
    requires c.atTop && AtTop(s, |s|)
    ensures Remembers(DetectCycle(c), s + [c.soc]) && !EndsCycle(s + [c.soc], |s|)
  {
    var x, n, t := c.soc, |s|, s + [c.soc];
    forall j: nat | Excursion(t, j, n) ensures false {
      PastStays(s, x, j, n);
      OneExcursion(s, j, j, n);
    }
    PastStays(s, x, 0, n);
    if x < 0.95 {
      assert t[n] < 0.95;
      assert IsLowest(DetectCycle(c), t, n, n);
    } else {
      forall i | 0 <= i < n + 1 && t[i] < 0.95 ensures exists y :: i < y < n + 1 && t[y] > 0.95 {
        var y :| i < y < n && t[y] > 0.95;
      }
    }
  }

  lemma ComesBack(c: Cell, s: seq<real>, j: nat, b: nat)
    requires !c.atTop && IsLowest(c, s, j, b) && c.soc > 0.95
    ensures AtTop(s + [c.soc], |s| + 1)
    ensures EndsCycle(s + [c.soc], |s|) <==> c.top - c.bottom > 0.5
  {
    var x, n, t := c.soc, |s|, s + [c.soc];
    assert t[n] > 0.95;
    PastStays(s, x, j, n);
    if c.top - c.bottom > 0.5 {
      assert Excursion(t, j, n) && t[j] - t[b] > 0.5;
    }
    if EndsCycle(t, n) {
      var i: nat, l: nat :| i <= l < n && Excursion(t, i, n) && t[i] - t[l] > 0.5;
      PastStays(s, x, i, n);
      OneExcursion(s, j, i, n);
      assert t[l] == s[l] && s[b] <= s[l];
    }
  }

  lemma StaysBelow(c: Cell, s: seq<real>, j: nat, b: nat)
    requires !c.atTop && !AtTop(s, |s|) && IsLowest(c, s, j, b) && c.soc <= 0.95
    ensures Remembers(DetectCycle(c), s + [c.soc]) && !EndsCycle(s + [c.soc], |s|)
  {
    var x, n, t := c.soc, |s|, s + [c.soc];
    PastStays(s, x, j, j);
    StillBelow(s, x);
    hide AtTop;
    assert IsLowest(DetectCycle(c), t, j, if x < c.bottom then n else b);
  }

  lemma StillBelow(s: seq<real>, x: real)
    requires !AtTop(s, |s|) && x <= 0.95
    ensures !AtTop(s + [x], |s| + 1)
  {
    var n, t := |s|, s + [x];
    var i :| 0 <= i < n && s[i] < 0.95 && forall y | i < y < n :: s[y] <= 0.95;
    assert t[i] < 0.95 && forall y | i < y < n + 1 :: t[y] <= 0.95;
  }

  // ---- Whole histories -------------------------------------------------------------------------------

  /** A step that does not end in runaway detects on the new charge, and nothing else of it counts. */
  lemma StepDetects(m: Math, c: Cell, current: real, dt: real, ambient: real)
    requires Sound(c.chem) && Step(m, c, current, dt, ambient).latched == NoError
    ensures c.latched == NoError
    ensures var v := Step(m, c, current, dt, ambient);
            var d := DetectCycle(c.(soc := v.soc));
            v.atTop == d.atTop && v.top == d.top && v.bottom == d.bottom && v.age.cycles == d.age.cycles
  {
    hide NextVrc, NextTemp, DeltaSoc, StepCalendar, StepThroughput;
    var i := Driven(c, current);
    var moved := Move(c, i, dt, ambient);
    if c.latched == NoError {
      var g := Grow(m, moved, i, dt);
      GrowLeavesDetector(m, moved, i, dt);
    }
  }

  lemma GrowLeavesDetector(m: Math, c: Cell, i: real, dt: real)
    requires c.chem.capacity > 0.0
    ensures var g := Grow(m, c, i, dt);
            && g == c.(age := g.age, agingAccum := g.agingAccum) && g.age.cycles == c.age.cycles
  {
  }

  /** The charge after each tick of a history. */
  function Course(m: Math, c: Cell, xs: seq<Input>): seq<real>
    requires Sound(c.chem)
    decreases xs
  {
    if xs == [] then []
    else
      var v := Feed(m, c, xs[0]);
      (if xs[0].Drive? then [v.soc] else []) + Course(m, v, xs[1..])
  }

  lemma FeedRemembers(m: Math, c: Cell, x: Input, s: seq<real>)
    requires Sound(c.chem) && Remembers(c, s) && Feed(m, c, x).latched == NoError
    ensures var v := Feed(m, c, x);
            var t := if x.Drive? then s + [v.soc] else s;
            && Remembers(v, t) && v.chem == c.chem
            && v.age.cycles - |CyclesOf(t)| == c.age.cycles - |CyclesOf(s)|
  {
    hide Step, DetectCycle, AtTop, EndsCycle, CyclesOf, IsLowest;
    var v := Feed(m, c, x);
    if x.Drive? {
      StepDetects(m, c, x.current, x.dt, x.ambient);
      StepKeepsItsChem(m, c, x.current, x.dt, x.ambient);
      var d := c.(soc := v.soc);
      SameMemory(c, d, s);
      DetectRemembers(d, s);
      SameMemory(DetectCycle(d), v, s + [v.soc]);
      OneMoreValue(s, v.soc);
    } else {
      SameMemory(c, v, s);
    }
  }

  lemma SameMemory(c: Cell, d: Cell, s: seq<real>)
    requires Remembers(c, s) && d.atTop == c.atTop && d.top == c.top && d.bottom == c.bottom
    ensures Remembers(d, s)
  {
    hide AtTop, Excursion;
    if !c.atTop {
      var j: nat, b: nat :| j <= b < |s| && IsLowest(c, s, j, b);
      assert IsLowest(d, s, j, b);
    }
  }

  lemma {:induction false} HistoryRemembers(m: Math, c: Cell, xs: seq<Input>, s: seq<real>)
    requires Sound(c.chem) && Remembers(c, s) && History(m, c, xs).latched == NoError
    ensures var end, t := History(m, c, xs), s + Course(m, c, xs);
            Remembers(end, t) && end.age.cycles - |CyclesOf(t)| == c.age.cycles - |CyclesOf(s)|
    decreases xs
  {
    hide Feed, Remembers, CyclesOf;
    if xs == [] {
      assert s + [] == s;
    } else {
      var v := Feed(m, c, xs[0]);
      if v.latched != NoError { LatchIsFinal(m, v, xs[1..]); }
      FeedRemembers(m, c, xs[0], s);
      var t := if xs[0].Drive? then s + [v.soc] else s;
      HistoryRemembers(m, v, xs[1..], t);
      assert s + Course(m, c, xs) == t + Course(m, v, xs[1..]);
    }
  }

  /** Over every history of a cell that starts at the top and does not run away, the cycle count grows
      by exactly the number of excursions of its charge that fell by more than half of the range. */
  lemma CyclesAreExcursions(m: Math, c: Cell, xs: seq<Input>)
    requires Sound(c.chem) && c.atTop && History(m, c, xs).latched == NoError
    ensures History(m, c, xs).age.cycles == c.age.cycles + |CyclesOf(Course(m, c, xs))|
  {
    hide History, Course;
    assert Remembers(c, []);
    NoValues();
    HistoryRemembers(m, c, xs, []);
    assert [] + Course(m, c, xs) == Course(m, c, xs);
  }

  lemma NoValues()
    ensures CyclesOf([]) == {}
  {
  }
}
