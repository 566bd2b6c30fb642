/**
 The watchdog's alert sink: every alert goes to the database, and what the database refuses
 waits in a bounded queue that the next alert drains first.  Calls of `Emit` do not overlap.
 Alerts are told apart by the number of the call that emitted them.
 */
module Alerts {
  const RETRY_QUEUE_CAP := 1000

  datatype Severity = Info | Warning | Critical
  datatype Alert = Alert(severity: Severity, message: string)

  /** An INSERT succeeds, fails with a Postgres error, or raises something that `emit` lets pass. */
  datatype Insert = Inserted | Refused | Raises

  /** Where the alerts of the first n calls are. */
  datatype Sink = Sink(
    n: nat, stored: seq<nat>, queued: seq<nat>, evicted: seq<nat>, lost: seq<nat>, published: seq<nat>)

  const EMPTY := Sink(0, [], [], [], [], [])

  // ---- One call, given how its inserts go ---------------------------------------------------------

  /** The length of the run of successes from insert number k on, at most `len`. */
  function Drained(len: nat, db: nat -> Insert, k: nat): (d: nat)
    ensures d <= len && (d < len ==> db(k + d) != Inserted)
    ensures forall j | k <= j < k + d :: db(j) == Inserted
    decreases len
  {
    if len == 0 || db(k) != Inserted then 0 else 1 + Drained(len - 1, db, k + 1)
  }

  /** How the insert of the new alert goes, after the drain; an insert that raises in the drain
      raises for the whole call. */
  function OwnInsert(len: nat, db: nat -> Insert): Insert {
    var d := Drained(len, db, 0);
    if d == len then db(d) else if db(d) == Raises then Raises else db(d + 1)
  }

  /** deque(maxlen=1000).append */
  function Append(s: Sink, k: nat): Sink {
    if |s.queued| < RETRY_QUEUE_CAP then s.(queued := s.queued + [k])
    else s.(queued := s.queued[1..] + [k], evicted := s.evicted + [s.queued[0]])
  }

  /** The first d queued alerts have gone in. */
  function AfterDrain(s: Sink, d: nat): Sink
    requires d <= |s.queued|
  {
    s.(stored := s.stored + s.queued[..d], queued := s.queued[d..])
  }

  function Settle(s: Sink, own: Insert): Sink {
    match own
    case Inserted => s.(n := s.n + 1, stored := s.stored + [s.n])
    case Refused => Append(s, s.n).(n := s.n + 1)
    case Raises => s.(n := s.n + 1, lost := s.lost + [s.n])
  }

  function EmitStep(s: Sink, critical: bool, db: nat -> Insert, mqttOk: bool): Sink {
    var own := OwnInsert(|s.queued|, db);
    var t := Settle(AfterDrain(s, Drained(|s.queued|, db, 0)), own);
    if critical && mqttOk && own != Raises then t.(published := t.published + [s.n]) else t
  }

  // ---- The ledger -----------------------------------------------------------------------------------

  /** Strictly increasing numbers below n. */
  ghost predicate Ordered(xs: seq<nat>, n: nat) {
    && (forall i, j | 0 <= i < j < |xs| :: xs[i] < xs[j])
    && (forall i | 0 <= i < |xs| :: xs[i] < n)
  }

  lemma OrderedAppend(xs: seq<nat>, n: nat)
    requires Ordered(xs, n)
    ensures Ordered(xs + [n], n + 1) && Ordered(xs, n + 1)
  {
  }

  lemma OrderedWithout(xs: seq<nat>, lo: nat, hi: nat, n: nat)
    requires Ordered(xs, n) && lo <= hi <= |xs|
    ensures Ordered(xs[..lo] + xs[hi..], n)
  {
    var ys := xs[..lo] + xs[hi..];
    assert forall i | 0 <= i < |ys| :: ys[i] == xs[if i < lo then i else i + hi - lo];
  }

  function Numbers(n: nat): multiset<nat> {
    if n == 0 then multiset{} else Numbers(n - 1) + multiset{n - 1}
  }

  /** All places together. */
  function Held(s: Sink): multiset<nat> {
    multiset(s.stored) + multiset(s.queued) + multiset(s.evicted) + multiset(s.lost)
  }

  /** Each alert emitted so far is in exactly one place, and the queue is in order and bounded. */
  ghost predicate Accounted(s: Sink) {
    && Held(s) == Numbers(s.n)
    && Ordered(s.queued, s.n) && |s.queued| <= RETRY_QUEUE_CAP
  }

  lemma SplitCounts<T>(xs: seq<T>, d: nat)
    requires d <= |xs|
    ensures multiset(xs) == multiset(xs[..d]) + multiset(xs[d..])
  {
    assert xs == xs[..d] + xs[d..];
  }

  lemma AppendKeeps(s: Sink)
    requires Ordered(s.queued, s.n) && |s.queued| <= RETRY_QUEUE_CAP
    ensures var v := Append(s, s.n);
            Ordered(v.queued, s.n + 1) && |v.queued| <= RETRY_QUEUE_CAP && v.n == s.n
  {
    hide Ordered;
    OrderedAppend(s.queued, s.n);
    if |s.queued| == RETRY_QUEUE_CAP {
      OrderedWithout(s.queued, 0, 1, s.n);
      assert s.queued[..0] + s.queued[1..] == s.queued[1..];
      OrderedAppend(s.queued[1..], s.n);
    }
  }

  lemma AppendHolds(s: Sink, k: nat)
    ensures Held(Append(s, k)) == Held(s) + multiset{k}
  {
    if |s.queued| >= RETRY_QUEUE_CAP {
      SplitCounts(s.queued, 1);
      assert s.queued[..1] == [s.queued[0]];
    }
  }

  lemma StoreHolds(s: Sink, k: nat)
    ensures Held(s.(stored := s.stored + [k])) == Held(s) + multiset{k}
    ensures Held(s.(lost := s.lost + [k])) == Held(s) + multiset{k}
  {
  }

  lemma DrainKeeps(s: Sink, d: nat)
    requires Accounted(s) && d <= |s.queued|
    ensures Accounted(AfterDrain(s, d))
  {
    hide Numbers, Ordered;
    SplitCounts(s.queued, d);
    assert multiset(s.stored + s.queued[..d]) == multiset(s.stored) + multiset(s.queued[..d]);
    OrderedWithout(s.queued, 0, d, s.n);
    assert s.queued[..0] + s.queued[d..] == s.queued[d..];
  }

  lemma SettleKeeps(s: Sink, own: Insert)
    requires Accounted(s)
    ensures Accounted(Settle(s, own))
  {
    hide Ordered, Append, Held;
    assert Numbers(s.n + 1) == Numbers(s.n) + multiset{s.n};
    SettleHolds(s, own);
    AppendKeeps(s);
    OrderedAppend(s.queued, s.n);
  }

  lemma SettleHolds(s: Sink, own: Insert)
    ensures Held(Settle(s, own)) == Held(s) + multiset{s.n}
  {
    hide Append;
    StoreHolds(s, s.n);
    AppendHolds(s, s.n);
  }

  lemma EmitKeepsAccount(s: Sink, critical: bool, db: nat -> Insert, mqttOk: bool)
    requires Accounted(s)
    ensures Accounted(EmitStep(s, critical, db, mqttOk))
  {
    hide Settle, AfterDrain, Numbers;
    var t := AfterDrain(s, Drained(|s.queued|, db, 0));
    DrainKeeps(s, Drained(|s.queued|, db, 0));
    SettleKeeps(t, OwnInsert(|s.queued|, db));
  }

  lemma {:induction false} NumberedOnce(n: nat, k: nat)
    ensures Numbers(n)[k] == if k < n then 1 else 0
    decreases n
  {
    if n > 0 { NumberedOnce(n - 1, k); }
  }

  /** Whatever is accounted for was emitted, and nothing was inserted twice. */
  lemma NothingTwice(s: Sink, k: nat)
    requires Accounted(s)
    ensures (if k in s.stored then 1 else 0) + (if k in s.queued then 1 else 0)
            + (if k in s.evicted then 1 else 0) + (if k in s.lost then 1 else 0) == if k < s.n then 1 else 0
    ensures multiset(s.stored)[k] <= 1
    ensures |s.stored| + |s.queued| + |s.evicted| + |s.lost| == s.n
  {
    NumberedOnce(s.n, k);
    var all := multiset(s.stored) + multiset(s.queued) + multiset(s.evicted) + multiset(s.lost);
    assert all[k] == multiset(s.stored)[k] + multiset(s.queued)[k] + multiset(s.evicted)[k] + multiset(s.lost)[k];
    NumbersCount(s.n);
  }

  lemma {:induction false} NumbersCount(n: nat)
    ensures |Numbers(n)| == n
    decreases n
  {
    if n > 0 { NumbersCount(n - 1); }
  }

  // ---- What a call achieves ---------------------------------------------------------------------------

  /** With every insert successful the backlog goes in first, in order, then the new alert, and
      the queue is empty; conversely an emptied queue means exactly that. */
  lemma BacklogFirst(s: Sink, critical: bool, db: nat -> Insert, mqttOk: bool)
    ensures var v := EmitStep(s, critical, db, mqttOk);
            (forall j | 0 <= j <= |s.queued| :: db(j) == Inserted)
            <==> v.queued == [] && v.stored == s.stored + s.queued + [s.n]
  {
    var d := Drained(|s.queued|, db, 0);
    var v := EmitStep(s, critical, db, mqttOk);
    if d == |s.queued| {
      assert s.queued[..d] == s.queued && s.queued[d..] == [];
      assert v.stored == s.stored + s.queued + [s.n] <==> |v.stored| == |s.stored| + d + 1;
    }
  }

  /** Insert number j is made by a call that finds `len` alerts queued: either everything before it
      went in, or the one before it was the first failure of the drain, a Postgres error, and j is
      the new alert's own. */
  predicate Attempted(len: nat, db: nat -> Insert, j: nat) {
    || (j <= len && forall m: nat | m < j :: db(m) == Inserted)
    || (1 <= j <= len && db(j - 1) == Refused && forall m: nat | m < j - 1 :: db(m) == Inserted)
  }

  /** A call loses its alert if and only if one of the inserts it makes raises something other than
      a Postgres error, and it never loses another. */
  lemma LostOnlyByRaising(s: Sink, critical: bool, db: nat -> Insert, mqttOk: bool)
    requires Accounted(s)
    ensures var v := EmitStep(s, critical, db, mqttOk);
            && (s.n in v.lost <==> exists j: nat :: Attempted(|s.queued|, db, j) && db(j) == Raises)
            && (forall k | k in v.lost && k != s.n :: k in s.lost)
  {
    NothingTwice(s, s.n);
    RaisesWhenAttempted(|s.queued|, db);
  }

  lemma RaisesWhenAttempted(len: nat, db: nat -> Insert)
    ensures OwnInsert(len, db) == Raises <==> exists j: nat :: Attempted(len, db, j) && db(j) == Raises
  {
    var d := Drained(len, db, 0);
    assert Attempted(len, db, d);
    if d < len && db(d) == Refused {
      assert Attempted(len, db, d + 1);
    }
    forall j: nat | Attempted(len, db, j) && db(j) == Raises ensures OwnInsert(len, db) == Raises {
      assert j == d || j == d + 1;
    }
  }

  /** The last insert a call makes. */
  predicate LastInsert(len: nat, db: nat -> Insert, j: nat) {
    Attempted(len, db, j) && !Attempted(len, db, j + 1)
  }

  /** The drain's successes, its failure, and the own insert unless that failure raised. */
  lemma AttemptedIs(len: nat, db: nat -> Insert, j: nat)
    ensures var d := Drained(len, db, 0);
            Attempted(len, db, j) <==> j <= d || (j == d + 1 && d < len && db(d) == Refused)
  {
  }

  lemma LastInsertIs(len: nat, db: nat -> Insert, j: nat)
    requires LastInsert(len, db, j)
    ensures OwnInsert(len, db) == db(j)
  {
    hide Attempted;
    AttemptedIs(len, db, j);
    AttemptedIs(len, db, j + 1);
  }

  /** The new alert goes where the call's last insert says: into the table, into the queue, or, if it
      raised, nowhere. */
  lemma NewAlertGoes(s: Sink, critical: bool, db: nat -> Insert, mqttOk: bool, j: nat)
    requires Accounted(s) && LastInsert(|s.queued|, db, j)
    ensures var v := EmitStep(s, critical, db, mqttOk);
            && (s.n in v.stored <==> db(j) == Inserted)
            && (s.n in v.queued <==> db(j) == Refused)
            && (s.n in v.lost <==> db(j) == Raises)
  {
    hide Accounted, Drained, Attempted;
    LastInsertIs(|s.queued|, db, j);
    NothingTwice(s, s.n);
    var t := AfterDrain(s, Drained(|s.queued|, db, 0));
    assert s.n !in t.stored && s.n !in t.queued && s.n !in t.lost;
  }

  /** A waiting alert goes into the table exactly when its insert and all before it succeed, drops out
      exactly when it is the oldest of a full queue and the call's two inserts are both refused, and
      otherwise goes on waiting. */
  lemma WaitingAlertGoes(s: Sink, critical: bool, db: nat -> Insert, mqttOk: bool, i: nat)
    requires Accounted(s) && i < |s.queued|
    ensures var v, k := EmitStep(s, critical, db, mqttOk), s.queued[i];
            var goesIn := forall j: nat | j <= i :: db(j) == Inserted;
            var dropsOut := i == 0 && |s.queued| == RETRY_QUEUE_CAP && db(0) == Refused && db(1) == Refused;
            && (k in v.stored <==> goesIn) && (k in v.evicted <==> dropsOut)
            && (k in v.queued <==> !goesIn && !dropsOut)
  {
    hide Held, Numbers, Ordered, Settle;
    var d, k := Drained(|s.queued|, db, 0), s.queued[i];
    var t, own := AfterDrain(s, d), OwnInsert(|s.queued|, db);
    assert (forall j: nat | j <= i :: db(j) == Inserted) <==> i < d;
    EmitKeepsAccount(s, critical, db, mqttOk);
    NothingTwice(EmitStep(s, critical, db, mqttOk), k);
    if i < d {
      assert s.queued[..d][i] == k;
      SettleGoes(t, own, 0);
    } else {
      assert t.queued[i - d] == k;
      SettleGoes(t, own, i - d);
    }
  }

  /** After the drain only the oldest waiting alert can drop out, and what is stored stays. */
  lemma SettleGoes(t: Sink, own: Insert, j: nat)
    ensures forall k | k in t.stored :: k in Settle(t, own).stored
    ensures var v := Settle(t, own);
            j < |t.queued| ==>
              if j == 0 && |t.queued| >= RETRY_QUEUE_CAP && own == Refused then t.queued[j] in v.evicted
              else t.queued[j] in v.queued
  {
    var v := Settle(t, own);
    if j < |t.queued| && own == Refused && |t.queued| >= RETRY_QUEUE_CAP && j > 0 {
      assert v.queued[j - 1] == t.queued[j];
    } else if j < |t.queued| && own == Refused && |t.queued| < RETRY_QUEUE_CAP {
      assert v.queued[j] == t.queued[j];
    }
  }

  /** The database has the alerts in order of emission, and those still queued come later. */
  ghost predicate InOrder(s: Sink) {
    Ordered(s.stored + s.queued, s.n)
  }

  /** The order survives a call unless its own insert succeeds while older alerts still wait. */
  lemma OrderKeptExactly(s: Sink, critical: bool, db: nat -> Insert, mqttOk: bool)
    requires InOrder(s) && |s.queued| <= RETRY_QUEUE_CAP
    ensures InOrder(EmitStep(s, critical, db, mqttOk))
            <==> !(Drained(|s.queued|, db, 0) < |s.queued| && OwnInsert(|s.queued|, db) == Inserted)
  {
    hide Ordered, Settle, OwnInsert;
    var d := Drained(|s.queued|, db, 0);
    var t := AfterDrain(s, d);
    assert t.stored + t.queued == s.stored + s.queued;
    SettleOrder(t, OwnInsert(|s.queued|, db));
  }

  lemma SettleOrder(s: Sink, own: Insert)
    requires InOrder(s) && |s.queued| <= RETRY_QUEUE_CAP
    ensures InOrder(Settle(s, own)) <==> !(s.queued != [] && own == Inserted)
  {
    hide Ordered;
    var all := s.stored + s.queued;
    OrderedAppend(all, s.n);
    match own
    case Raises =>
    case Inserted => InsertOrder(s);
    case Refused => QueueOrder(s);
  }

  lemma QueueOrder(s: Sink)
    requires InOrder(s)
    ensures InOrder(Settle(s, Refused))
  {
    hide Ordered;
    var all, i := s.stored + s.queued, |s.stored|;
    var v := Settle(s, Refused);
    if |s.queued| < RETRY_QUEUE_CAP {
      OrderedAppend(all, s.n);
      assert v.stored + v.queued == all + [s.n];
    } else {
      OrderedWithout(all, i, i + 1, s.n);
      OrderedAppend(all[..i] + all[i + 1..], s.n);
      assert s.queued[1..] == all[i + 1..] && s.stored == all[..i];
      assert v.stored + v.queued == all[..i] + all[i + 1..] + [s.n];
    }
  }

  lemma InsertOrder(s: Sink)
    requires InOrder(s)
    ensures InOrder(Settle(s, Inserted)) <==> s.queued == []
  {
    var all := s.stored + s.queued;
    var v := Settle(s, Inserted);
    if s.queued == [] {
      assert v.stored + v.queued == all + [s.n];
    } else {
      var i := |s.stored|;
      assert (v.stored + v.queued)[i] == s.n && (v.stored + v.queued)[i + 1] == all[i];
    }
  }

  // ---- Runs ---------------------------------------------------------------------------------------------

  datatype Call = Call(critical: bool, db: nat -> Insert, mqttOk: bool)

  function EmitAll(s: Sink, calls: seq<Call>): Sink
    decreases calls
  {
    if calls == [] then s
    else EmitAll(EmitStep(s, calls[0].critical, calls[0].db, calls[0].mqttOk), calls[1..])
  }

  /** Over any sequence of calls and any pattern of failures. */
  lemma {:induction false} LedgerHolds(s: Sink, calls: seq<Call>)
    requires Accounted(s)
    ensures Accounted(EmitAll(s, calls)) && EmitAll(s, calls).n == s.n + |calls|
    decreases calls
  {
    if calls != [] {
      EmitKeepsAccount(s, calls[0].critical, calls[0].db, calls[0].mqttOk);
      LedgerHolds(EmitStep(s, calls[0].critical, calls[0].db, calls[0].mqttOk), calls[1..]);
    }
  }

  /** The call was critical, its publish succeeded, and no insert it made raised. */
  ghost predicate Publishes(len: nat, call: Call) {
    call.critical && call.mqttOk && !exists j: nat :: Attempted(len, call.db, j) && call.db(j) == Raises
  }

  lemma CallPublishes(s: Sink, call: Call)
    ensures EmitStep(s, call.critical, call.db, call.mqttOk).published
            == s.published + if Publishes(|s.queued|, call) then [s.n] else []
    ensures EmitStep(s, call.critical, call.db, call.mqttOk).n == s.n + 1
  {
    hide Attempted, Drained, OwnInsert;
    RaisesWhenAttempted(|s.queued|, call.db);
  }

  /** Call number k's alert is published exactly when it was critical, its publish succeeded and none of
      its inserts raised - be it stored or queued - and it is published once, in order of emission. */
  lemma {:induction false} PublishedExactly(s: Sink, calls: seq<Call>, k: nat)
    requires Ordered(s.published, s.n) && k < |calls|
    ensures var v := EmitAll(s, calls);
            && Ordered(v.published, v.n) && s.published <= v.published
            && (forall i | |s.published| <= i < |v.published| :: v.published[i] >= s.n)
            && (s.n + k in v.published <==> Publishes(|EmitAll(s, calls[..k]).queued|, calls[k]))
    decreases calls
  {
    hide Ordered, EmitStep, Publishes;
    var call := calls[0];
    var t := EmitStep(s, call.critical, call.db, call.mqttOk);
    CallPublishes(s, call);
    OrderedAppend(s.published, s.n);
    assert s.published + [] == s.published;
    if |calls| > 1 {
      PublishedExactly(t, calls[1..], if k > 0 then k - 1 else 0);
      if k > 0 { assert calls[..k][1..] == calls[1..][..k - 1]; }
    } else {
      assert calls[1..] == [];
    }
    if k == 0 {
      assert calls[..0] == [];
      PublishedStays(t, EmitAll(t, calls[1..]), s.n);
      NotYetPublished(s);
    }
  }

  /** Later calls publish only later numbers. */
  lemma PublishedStays(t: Sink, v: Sink, k: nat)
    requires t.n == k + 1 && Ordered(v.published, v.n) && t.published <= v.published
    requires forall i | |t.published| <= i < |v.published| :: v.published[i] >= t.n
    ensures k in v.published <==> k in t.published
  {
  }

  lemma NotYetPublished(s: Sink)
    requires Ordered(s.published, s.n)
    ensures s.n !in s.published
  {
  }

  // ---- The sink itself ----------------------------------------------------------------------------------

  ghost predicate Below(ks: seq<nat>, n: nat) {
    forall i | 0 <= i < |ks| :: ks[i] < n
  }

  /** The alerts with these numbers. */
  function Pick(emitted: seq<Alert>, ks: seq<nat>): seq<Alert> {
    seq(|ks|, i requires 0 <= i < |ks| => if ks[i] < |emitted| then emitted[ks[i]] else Alert(Info, ""))
  }

  lemma PickLater(emitted: seq<Alert>, a: Alert, ks: seq<nat>)
    requires Below(ks, |emitted|)
    ensures Pick(emitted + [a], ks) == Pick(emitted, ks)
  {
  }

  lemma PickNewest(emitted: seq<Alert>, a: Alert, ks: seq<nat>)
    requires Below(ks, |emitted|)
    ensures Pick(emitted + [a], ks + [|emitted|]) == Pick(emitted, ks) + [a]
    ensures Below(ks + [|emitted|], |emitted| + 1) && Below(ks, |emitted| + 1)
  {
  }

  /** One alert more from the head of the queue to the end of the table. */
  lemma PickMoves(emitted: seq<Alert>, stored: seq<nat>, queued: seq<nat>, d: nat)
    requires d < |queued|
    ensures var before, after := stored + queued[..d], stored + queued[..d + 1];
            && |Pick(emitted, queued[d..])| > 0
            && Pick(emitted, after) == Pick(emitted, before) + [Pick(emitted, queued[d..])[0]]
            && Pick(emitted, queued[d + 1..]) == Pick(emitted, queued[d..])[1..]
  {
    var k := queued[d];
    assert queued[d..] == [k] + queued[d + 1..];
    assert stored + queued[..d + 1] == stored + queued[..d] + [k];
  }

  lemma PickTail(emitted: seq<Alert>, ks: seq<nat>)
    ensures |Pick(emitted, ks)| == |ks|
    ensures ks != [] ==> Pick(emitted, ks[1..]) == Pick(emitted, ks)[1..]
  {
  }

  /** What the new alert changes in the fields, once the drain is over. */
  lemma SettleShows(past: seq<Alert>, a: Alert, s: Sink, own: Insert)
    requires s.n == |past| && Below(s.stored, s.n) && Below(s.queued, s.n) && |s.queued| <= RETRY_QUEUE_CAP
    ensures var v, all, queue := Settle(s, own), past + [a], Pick(past, s.queued);
            && Below(v.stored, s.n + 1) && v.published == s.published && v.n == s.n + 1
            && Pick(all, v.stored) == Pick(past, s.stored) + (if own == Inserted then [a] else [])
            && Pick(all, v.queued)
               == if own == Refused then (if |queue| == RETRY_QUEUE_CAP then queue[1..] else queue) + [a] else queue
  {
    hide Pick;
    PickTail(past, s.queued);
    PickLater(past, a, s.stored);
    PickLater(past, a, s.queued);
    PickNewest(past, a, s.stored);
    PickNewest(past, a, s.queued);
    if s.queued != [] { PickNewest(past, a, s.queued[1..]); }
  }

  lemma PublishShows(past: seq<Alert>, a: Alert, ks: seq<nat>)
    requires Below(ks, |past|)
    ensures Below(ks, |past| + 1) && Below(ks + [|past|], |past| + 1)
    ensures Pick(past + [a], ks) == Pick(past, ks) && Pick(past + [a], ks + [|past|]) == Pick(past, ks) + [a]
  {
    hide Pick;
    PickLater(past, a, ks);
    PickNewest(past, a, ks);
  }

  lemma DrainShows(s: Sink, d: nat)
    requires Accounted(s) && Below(s.stored, s.n) && d <= |s.queued|
    ensures var t := AfterDrain(s, d);
            Below(t.stored, s.n) && Below(t.queued, s.n) && |t.queued| <= RETRY_QUEUE_CAP && t.published == s.published
  {
    hide Held, Numbers;
  }

  lemma DrainedIs(len: nat, db: nat -> Insert, d: nat)
    requires d <= len && (forall j | 0 <= j < d :: db(j) == Inserted) && (d < len ==> db(d) != Inserted)
    ensures Drained(len, db, 0) == d
  {
    var e := Drained(len, db, 0);
    assert e < len ==> db(0 + e) != Inserted;
  }

  class AlertSink {
    var retry: seq<Alert>       // deque(maxlen=1000)
    var table: seq<Alert>       // rows of `alerts`
    var topic: seq<Alert>       // messages on alerts/critical

    ghost var emitted: seq<Alert>
    ghost var sink: Sink

    ghost predicate Valid()
      reads this
    {
      && Accounted(sink) && sink.n == |emitted|
      && Below(sink.stored, sink.n) && Below(sink.published, sink.n)
      && retry == Pick(emitted, sink.queued)
      && table == Pick(emitted, sink.stored)
      && topic == Pick(emitted, sink.published)
    }

    constructor ()
      ensures Valid() && sink == EMPTY && emitted == []
    {
      retry, table, topic, emitted, sink := [], [], [], [], EMPTY;
    }

    method InsertDb(a: Alert, outcome: Insert)
      modifies this`table
      ensures table == if outcome == Inserted then old(table) + [a] else old(table)
    {
      if outcome == Inserted {
        table := table + [a];
      }
    }

    /** Insert the head of the queue and pop it, until the queue is empty or an insert fails. */
    method Drain(db: nat -> Insert) returns (drained: nat, last: Insert)
      requires Valid()
      modifies this`retry, this`table
      ensures drained == Drained(|sink.queued|, db, 0)
      ensures last == if drained < |sink.queued| then db(drained) else Inserted
      ensures retry == Pick(emitted, sink.queued[drained..])
      ensures table == Pick(emitted, sink.stored + sink.queued[..drained])
    {
      hide Accounted, Below, Pick, Drained;
      drained, last := 0, Inserted;
      PickTail(emitted, sink.queued);
      assert sink.queued[0..] == sink.queued && sink.stored + sink.queued[..0] == sink.stored;
      while retry != []
        invariant drained <= |sink.queued| && last == Inserted
        invariant forall j | 0 <= j < drained :: db(j) == Inserted
        invariant retry == Pick(emitted, sink.queued[drained..])
        invariant table == Pick(emitted, sink.stored + sink.queued[..drained])
        invariant |retry| == |sink.queued| - drained
        decreases |retry|
      {
        var queued := retry[0];
        last := db(drained);
        InsertDb(queued, last);
        if last != Inserted {
          break;
        }
        PickMoves(emitted, sink.stored, sink.queued, drained);
        retry := retry[1..];
        drained := drained + 1;
      }
      DrainedIs(|sink.queued|, db, drained);
    }

    /** Drain the queue first, then insert the new alert or queue it, then publish it if critical. */
    method Emit(a: Alert, db: nat -> Insert, mqttOk: bool) returns (raised: bool)
      requires Valid()
      modifies this
      ensures Valid() && emitted == old(emitted) + [a]
      ensures sink == EmitStep(old(sink), a.severity == Critical, db, mqttOk)
      ensures raised <==> exists j: nat :: Attempted(|old(sink).queued|, db, j) && db(j) == Raises
      ensures topic == old(topic) + if a.severity == Critical && mqttOk && !raised then [a] else []
    {
      hide Accounted, Pick, Below, Drained, Attempted, Settle;
      RaisesWhenAttempted(|sink.queued|, db);
      EmitKeepsAccount(sink, a.severity == Critical, db, mqttOk);
      DrainShows(sink, Drained(|sink.queued|, db, 0));
      SettleShows(emitted, a, AfterDrain(sink, Drained(|sink.queued|, db, 0)), OwnInsert(|sink.queued|, db));
      PublishShows(emitted, a, sink.published);
      ghost var before := sink;
      var drained, last := Drain(db);
      var outcome := last;
      if last != Raises {
        outcome := db(if last == Inserted then drained else drained + 1);
        InsertDb(a, outcome);
      }
      raised := outcome == Raises;
      emitted := emitted + [a];
      sink := EmitStep(before, a.severity == Critical, db, mqttOk);
      if outcome == Refused {
        retry := (if |retry| == RETRY_QUEUE_CAP then retry[1..] else retry) + [a];
      }
      if !raised && a.severity == Critical && mqttOk {
        topic := topic + [a];
      }
    }
  }
}
