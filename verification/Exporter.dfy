/**
 One export pass in its own form: scan, stream each hour in batches, record, drop.  Each
 outside effect logs itself as an action of module `Export`, so a pass is a run of that
 module's steps, and everything proved of all runs holds at each of its points.
 */
module Exporter {
  import opened HivePath
  import opened Export
  import opened ExportProofs

  const BATCH_ROWS := 100_000

  datatype Fate =
    | Succeeds
    | RaisesInFetch(k: nat)  // fetching batch k fails; `finally` closes what is open
    | RaisesInWrite(k: nat)  // writing batch k fails, when the writer is open already
    | RaisesAfterClose       // the object is complete, but stat or ledger insert fails

  lemma RunOneMore(t: Tiers, actions: seq<Action>, a: Action)
    ensures Run(t, actions + [a]) == Step(Run(t, actions), a)
    decreases actions
  {
    if actions != [] {
      assert (actions + [a])[1..] == actions[1..] + [a];
      RunOneMore(Step(t, actions[0]), actions[1..], a);
    }
  }

  class Exporter {
    const bucket: string
    var hot: set<Row>
    var cold: map<string, set<Row>>
    var ledger: map<Hour, nat>

    ghost var ingested: set<Row>
    ghost var pass: Pass
    ghost var used: set<Hour>
    ghost const origin: Tiers
    ghost var log: seq<Action>

    ghost function View(): Tiers
      reads this
    {
      Tiers(bucket, ingested, hot, cold, ledger, [pass])
    }

    ghost predicate Valid()
      reads this
    {
      && View() == Run(origin, log)
      && Inv(View()) && Lone(View()) && Bounded(View(), used)
    }

    constructor (b: string)
      ensures Valid() && View() == Empty(b, 1) && log == []
    {
      bucket, hot, cold, ledger, ingested := b, {}, map[], map[], {};
      pass, used, origin, log := Idle, {}, Empty(b, 1), [];
      new;
      EmptyIsSound(b, 1);
      assert View() == Empty(b, 1);
    }

    /** Record that the last change of the state was action `a`. */
    ghost method Did(before: Tiers, a: Action)
      requires before == Run(origin, log) && Inv(before) && Lone(before) && Bounded(before, used)
      requires View() == Step(before, a)
      requires a.Ingest? ==> forall c | c in used :: !Before(a.row.time.hour, c)
      modifies this`log, this`used
      ensures Valid() && log == old(log) + [a]
      ensures used == old(used) + if a.Begin? then {a.cutoff} else {}
    {
      PoliteStep(before, a, used);
      RunOneMore(origin, log, a);
      log, used := log + [a], used + if a.Begin? then {a.cutoff} else {};
    }

    method Ingest(r: Row)
      requires Valid() && r !in ingested && forall c | c in used :: !Before(r.time.hour, c)
      modifies this
      ensures Valid() && log == old(log) + [Action.Ingest(r)]
    {
      ghost var before := View();
      hot := hot + {r};
      ingested := ingested + {r};
      Did(before, Action.Ingest(r));
    }

    /** Every hot row below the cutoff is in a recorded hour or in a pending one; each pending hour
        is below the cutoff, has such a row and is not recorded; they come in order, each once. */
    method FindPendingHours(cutoff: Hour) returns (pending: seq<Hour>)
      ensures forall r | r in hot && Before(r.time.hour, cutoff) :: r.time.hour in ledger || r.time.hour in pending
      ensures forall h | h in pending :: Before(h, cutoff) && h !in ledger && exists r :: r in hot && r.time.hour == h
      ensures forall i, j | 0 <= i < j < |pending| :: Before(pending[i], pending[j])
    {
      pending := Ascending(set r | r in hot && Before(r.time.hour, cutoff) && r.time.hour !in ledger :: r.time.hour);
    }

    /** The cursor's answer, in some order. */
    method SelectHour(h: Hour) returns (records: seq<Row>)
      ensures (set r | r in records) == HotRows(View(), h) && |records| == |HotRows(View(), h)|
    {
      records := [];
      var rest := set r | r in hot && r.time.hour == h;
      ghost var all := rest;
      while rest != {}
        invariant rest <= all && (set r | r in records) == all - rest && |records| + |rest| == |all|
        decreases rest
      {
        var r :| r in rest;
        assert |rest| == |rest - {r}| + 1;
        assert (set x | x in records + [r]) == (set x | x in records) + {r};
        rest, records := rest - {r}, records + [r];
      }
    }

    method RecordExport(h: Hour, count: nat)
      requires Valid() && pass.Pass? && pass.todo != [] && h == pass.todo[0] && pass.stage == Written(count)
      modifies this`ledger, this`pass, this`log, this`used
      ensures Valid() && log == old(log) + [Record(0)] && used == old(used)
      ensures pass == old(pass).(todo := old(pass).todo[1..], stage := AtHour)
      ensures ledger == if h in old(ledger) then old(ledger) else old(ledger)[h := count]
    {
      hide Inv, Lone, Bounded, Run, HourPath;
      ghost var before := View();
      if h !in ledger { // ON CONFLICT DO NOTHING
        ledger := ledger[h := count];
      }
      pass := pass.(todo := pass.todo[1..], stage := AtHour);
      Did(before, Record(0));
    }

    /** Stream the records batch by batch; on an error, say what had been written by then and
        whether the writer was open, which it is from before the first write. */
    static method WriteBatches(records: seq<Row>, fate: Fate)
      returns (content: set<Row>, writing: bool, rowCount: nat, raised: bool)
      ensures rowCount <= |records| && content == set r | r in records[..rowCount]
      ensures !raised ==> rowCount == |records|
      ensures raised ==> !fate.Succeeds? && !fate.RaisesAfterClose?
      ensures raised && fate.RaisesInWrite? ==> writing && rowCount < |records|
      ensures rowCount > 0 ==> writing
      ensures writing && rowCount == 0 ==> raised && fate == RaisesInWrite(0)
    {
      content, writing, rowCount, raised := {}, false, 0, false;
      var batches := 0;
      while true
        invariant rowCount <= |records| && content == set r | r in records[..rowCount]
        invariant (rowCount > 0 <==> writing) && (rowCount > 0 <==> batches > 0)
        decreases |records| - rowCount
      {
        if fate == RaisesInFetch(batches) {
          raised := true;
          return;
        }
        if rowCount == |records| {
          return;
        }
        writing := true;
        if fate == RaisesInWrite(batches) {
          raised := true;
          return;
        }
        var next := if rowCount + BATCH_ROWS <= |records| then rowCount + BATCH_ROWS else |records|;
        var batch := records[rowCount..next];
        assert records[..next] == records[..rowCount] + batch;
        content := content + set r | r in batch;
        rowCount, batches := next, batches + 1;
      }
    }

    method OpenCursor(h: Hour) returns (records: seq<Row>)
      requires Valid() && pass.Pass? && pass.todo != [] && h == pass.todo[0] && pass.stage == AtHour
      modifies this`pass, this`log, this`used
      ensures Valid() && log == old(log) + [Action.OpenCursor(0)] && used == old(used)
      ensures |records| == |HotRows(View(), h)| && (set r | r in records) == HotRows(View(), h)
      ensures pass == old(pass).(stage := if records == [] then Written(0) else Opened(HotRows(View(), h)))
    {
      ghost var before := View();
      records := SelectHour(h);
      ghost var snapshot := HotRows(before, h);
      assert records == [] <==> snapshot == {};
      pass := pass.(stage := StageOf(snapshot));
      Did(before, Action.OpenCursor(0));
    }

    method CloseObject(h: Hour, content: set<Row>)
      requires Valid() && pass.Pass? && pass.todo != [] && h == pass.todo[0] && pass.stage == Opened(content)
      modifies this`cold, this`pass, this`log, this`used
      ensures Valid() && log == old(log) + [Action.CloseObject(0)] && used == old(used)
      ensures pass == old(pass).(stage := Written(|content|))
      ensures cold == old(cold)[HourPath(bucket, h) := content]
    {
      ghost var before := View();
      cold := cold[HourPath(bucket, h) := content];
      pass := pass.(stage := Written(|content|));
      Did(before, Action.CloseObject(0));
    }

    /** The pass gives up; `finally` has closed the writer if there was one. */
    method GiveUp(h: Hour, writing: bool, content: set<Row>)
      requires Valid() && pass.Pass? && pass.todo != [] && h == pass.todo[0]
      requires writing ==> pass.stage.Opened? && content <= pass.stage.snapshot
      modifies this`cold, this`pass, this`log, this`used
      ensures Valid() && pass == Idle && used == old(used)
      ensures log == old(log) + [if writing then FailPartial(0, content) else Fail(0)]
      ensures cold == if writing then old(cold)[HourPath(bucket, h) := content] else old(cold)
    {
      hide Inv, Lone, Bounded, Run, HourPath;
      ghost var before := View();
      pass := Idle;
      if writing {
        cold := cold[HourPath(bucket, h) := content];
        Did(before, FailPartial(0, content));
      } else {
        Did(before, Fail(0));
      }
    }

    method ExportHour(h: Hour, fate: Fate) returns (ok: bool, rowCount: nat)
      requires Valid() && pass.Pass? && pass.todo != [] && h == pass.todo[0] && pass.stage == AtHour
      modifies this`cold, this`ledger, this`pass, this`log, this`used
      ensures Valid() && used == old(used)
      ensures ok ==> ledger == old(ledger)[h := rowCount] && rowCount == |HotRows(old(View()), h)|
      ensures ok ==> pass == old(pass).(todo := old(pass).todo[1..], stage := AtHour)
      ensures !ok ==> pass == Idle && ledger == old(ledger)
      ensures fate.Succeeds? ==> ok
    {
      HeadIsUnrecorded();
      var records := OpenCursor(h);
      var content, writing, count, raised := WriteBatches(records, fate);
      assert count == |records| ==> records[..count] == records;
      if raised {
        GiveUp(h, writing, content);
        return false, 0;
      }
      rowCount := count;
      if writing {
        CloseObject(h, content);
      }
      if fate == RaisesAfterClose {
        GiveUp(h, false, {});
        return false, 0;
      }
      RecordExport(h, rowCount);
      ok := true;
    }

    method DropExportedChunks(cutoff: Hour)
      requires Valid() && pass.Pass? && pass.todo == [] && pass.cutoff == cutoff
      modifies this`hot, this`pass, this`log, this`used
      ensures Valid() && log == old(log) + [Drop(0)] && pass == Idle && used == old(used)
      ensures hot == set r | r in old(hot) && !Before(r.time.hour, cutoff)
    {
      ghost var before := View();
      hot := set r | r in hot && !Before(r.time.hour, cutoff);
      pass := Idle;
      Did(before, Drop(0));
    }

    lemma HeadIsUnrecorded()
      requires Valid() && pass.Pass? && pass.todo != [] && pass.stage == AtHour
      ensures pass.todo[0] !in ledger
    {
      assert pass.todo[0] in pass.todo;
    }

    /** The loop of a pass: hour after hour, until one fails. */
    method ExportPending(pending: seq<Hour>, fates: Hour -> Fate) returns (exported: nat, totalRows: nat)
      requires Valid() && pass.Pass? && pass.todo == pending && pass.stage == AtHour && pending != []
      modifies this`cold, this`ledger, this`pass, this`log, this`used
      ensures Valid() && used == old(used) && exported <= |pending|
      ensures ledger.Keys == old(ledger.Keys) + set h | h in pending[..exported]
      ensures totalRows == Counted(ledger, pending[..exported])
      ensures if exported == |pending| then pass == old(pass).(todo := []) else pass == Idle
      ensures exported < |pending| ==> !fates(pending[exported]).Succeeds?
    {
      hide Inv, Lone, Bounded, Run;
      totalRows, exported := 0, 0;
      assert pending[..0] == [] && Counted(ledger, []) == 0;
      while exported < |pending|
        invariant Valid() && used == old(used) && exported <= |pending|
        invariant ledger.Keys == old(ledger.Keys) + set h | h in pending[..exported]
        invariant totalRows == Counted(ledger, pending[..exported])
        invariant pass == old(pass).(todo := pending[exported..])
      {
        var h := pending[exported];
        ghost var before := ledger;
        HeadIsUnrecorded();
        var ok, rows := ExportHour(h, fates(h));
        if !ok {
          break;
        }
        OneMoreHour(old(ledger).Keys, before, pending, exported, rows);
        totalRows, exported := totalRows + rows, exported + 1;
      }
      assert exported == |pending| ==> pending[exported..] == [];
    }

    /** A whole pass: it records an initial segment of the pending hours in ascending order,
        and drops the chunks below the cutoff only if that segment is all of them. */
    method RunOnce(now: Timestamp, fates: Hour -> Fate) returns (exported: nat, totalRows: nat, dropped: bool)
      requires Valid() && pass == Idle
      modifies this`hot, this`cold, this`ledger, this`pass, this`log, this`used
      ensures Valid() && pass == Idle && used == old(used) + {now.hour}
      ensures var pending := Ascending(PendingHours(old(View()), now.hour));
              && exported <= |pending|
              && ledger.Keys == old(ledger.Keys) + (set h | h in pending[..exported])
              && totalRows == Counted(ledger, pending[..exported])
              && (exported < |pending| ==> !fates(pending[exported]).Succeeds?)
              && (dropped <==> pending != [] && exported == |pending|)
      ensures hot == if dropped then set r | r in old(hot) && !Before(r.time.hour, now.hour) else old(hot)
    {
      hide Inv, Lone, Bounded, Run;
      var cutoff := HourFloor(now).hour;
      var pending := FindPendingHours(cutoff);
      AscendingIsUnique(pending, PendingHours(View(), cutoff));
      BeginPass(cutoff, pending);
      totalRows, exported, dropped := 0, 0, false;
      if pending != [] {
        exported, totalRows := ExportPending(pending, fates);
        if exported == |pending| {
          DropExportedChunks(cutoff);
          dropped := true;
        }
      }
    }

    method BeginPass(cutoff: Hour, pending: seq<Hour>)
      requires Valid() && pass == Idle && pending == Ascending(PendingHours(View(), cutoff))
      modifies this`pass, this`log, this`used
      ensures Valid() && log == old(log) + [Begin(0, cutoff)] && used == old(used) + {cutoff}
      ensures pass == if pending == [] then Idle else Pass(cutoff, pending, AtHour)
    {
      ghost var before := View();
      if pending != [] {
        pass := Pass(cutoff, pending, AtHour);
      }
      Did(before, Begin(0, cutoff));
    }
  }

  /** There is only one way to list a set of hours in ascending order. */
  lemma {:induction false} AscendingIsUnique(s: seq<Hour>, hs: set<Hour>)
    requires forall h :: h in s <==> h in hs
    requires forall i, j | 0 <= i < j < |s| :: Before(s[i], s[j])
    ensures s == Ascending(hs)
    decreases |s|
  {
    if s == [] {
      assert hs == {};
    } else {
      hide Ascending, Before;
      var t := Ascending(hs);
      assert s[0] in hs && t[0] in s;
      HeadIsEarliest(s, t[0]);
      HeadIsEarliest(t, s[0]);
      NoLoop(s[0], t[0]);
      TailHasTheRest(s);
      AscendingIsUnique(s[1..], hs - {s[0]});
      AscendingUnfolds(hs);
    }
  }

  lemma HeadIsEarliest(s: seq<Hour>, h: Hour)
    requires h in s && forall i, j | 0 <= i < j < |s| :: Before(s[i], s[j])
    ensures h == s[0] || Before(s[0], h)
  {
  }

  lemma NoLoop(a: Hour, b: Hour)
    ensures !(Before(a, b) && Before(b, a))
  {
  }

  lemma TailHasTheRest(s: seq<Hour>)
    requires s != [] && forall i, j | 0 <= i < j < |s| :: Before(s[i], s[j])
    ensures forall h :: h in s[1..] <==> h in s && h != s[0]
  {
    forall h | h in s && h != s[0] ensures h in s[1..] {
      var k :| 0 <= k < |s| && s[k] == h;
      assert s[1..][k - 1] == h;
    }
    forall h | h in s[1..] ensures h in s && h != s[0] {
      var k :| 0 <= k < |s| - 1 && s[1..][k] == h;
      assert s[k + 1] == h && Before(s[0], s[k + 1]);
    }
  }

  lemma AscendingUnfolds(hs: set<Hour>)
    requires hs != {}
    ensures var t := Ascending(hs); t != [] && t[0] in hs && t == [t[0]] + Ascending(hs - {t[0]})
  {
  }

  function Counted(ledger: map<Hour, nat>, hs: seq<Hour>): nat {
    if hs == [] then 0
    else Counted(ledger, hs[..|hs| - 1]) + if hs[|hs| - 1] in ledger then ledger[hs[|hs| - 1]] else 0
  }

  lemma OneMoreHour(start: set<Hour>, ledger: map<Hour, nat>, pending: seq<Hour>, k: nat, rows: nat)
    requires k < |pending| && pending[k] !in ledger && ledger.Keys == start + set h | h in pending[..k]
    ensures var after, done := ledger[pending[k] := rows], pending[..k + 1];
            && after.Keys == start + (set h | h in done)
            && Counted(after, done) == Counted(ledger, pending[..k]) + rows
  {
    var after := ledger[pending[k] := rows];
    assert pending[..k + 1] == pending[..k] + [pending[k]];
    forall h | h in pending[..k] ensures h in ledger && after[h] == ledger[h] {
      assert h in ledger.Keys;
    }
    CountedFrame(ledger, after, pending[..k]);
  }

  lemma CountedFrame(a: map<Hour, nat>, b: map<Hour, nat>, hs: seq<Hour>)
    requires forall h | h in hs :: h in a && h in b && a[h] == b[h]
    ensures Counted(a, hs) == Counted(b, hs)
  {
  }
}
