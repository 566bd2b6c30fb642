/**
 What a stored row says, told from the topics and payloads alone: which message it comes from, whose
 it is, and which experiment it is attributed to.
 */
module IngesterRows {
  import opened Prelude
  import opened Ingester

  /** The number of the last message before p that sets or clears the context of this channel. */
  ghost predicate LastSets(d: Decoder, heard: seq<Msg>, p: nat, key: Key, j: int) {
    && 0 <= j < p <= |heard| && Sets(d, heard[j], key)
    && forall i | j < i < p :: !Sets(d, heard[i], key)
  }

  /** What was set last and not cleared since; empty strings if there is no such thing. */
  ghost predicate Attributed(d: Decoder, heard: seq<Msg>, p: nat, key: Key, context: Context)
    requires p <= |heard|
  {
    && (forall j | LastSets(d, heard, p, key, j) ::
          if heard[j].payload == "" then context == NO_CONTEXT else d.context(heard[j].payload) == Some(context))
    && ((forall j | 0 <= j < p :: !Sets(d, heard[j], key)) ==> context == NO_CONTEXT)
  }

  function TelemetryIn(d: Decoder, heard: seq<Msg>): nat
    decreases heard
  {
    if heard == [] then 0
    else TelemetryIn(d, heard[..|heard| - 1]) + if Telemetry(d, heard[|heard| - 1]) then 1 else 0
  }

  // ---- Contexts ----------------------------------------------------------------------------------

  lemma {:induction false} LatestIs(d: Decoder, heard: seq<Msg>, key: Key)
    ensures var latest := LatestContext(d, heard, key);
            && (forall j | LastSets(d, heard, |heard|, key, j) ::
                  latest == if heard[j].payload == "" then None else d.context(heard[j].payload))
            && ((forall j | 0 <= j < |heard| :: !Sets(d, heard[j], key)) ==> latest == None)
    decreases heard
  {
    hide Sets, ParseContext, IsContext;
    if heard != [] {
      var n := |heard| - 1;
      ParsedSets(d, heard[n], key);
      if !Sets(d, heard[n], key) {
        LatestIs(d, heard[..n], key);
        forall j | LastSets(d, heard, |heard|, key, j) ensures LastSets(d, heard[..n], n, key, j) {
          assert heard[..n][j] == heard[j];
          assert forall i | j < i < n :: heard[..n][i] == heard[i];
        }
      }
    }
  }

  // ---- Rows --------------------------------------------------------------------------------------

  lemma AttributedLatest(d: Decoder, heard: seq<Msg>, p: nat, key: Key)
    requires p <= |heard|
    ensures var c := LatestContext(d, heard[..p], key);
            Attributed(d, heard, p, key, if c.Some? then c.value else NO_CONTEXT)
  {
    hide Sets, LatestContext;
    var before := heard[..p];
    LatestIs(d, before, key);
    assert forall i | 0 <= i < p :: before[i] == heard[i];
    forall j | LastSets(d, heard, p, key, j) ensures LastSets(d, before, p, key, j) {}
    forall j | LastSets(d, heard, p, key, j) && heard[j].payload != "" ensures d.context(heard[j].payload).Some? {
      SetsDecodes(d, heard[j], key);
    }
  }

  lemma SetsDecodes(d: Decoder, m: Msg, key: Key)
    requires Sets(d, m, key) && m.payload != ""
    ensures d.context(m.payload).Some?
  {
  }

  lemma {:induction false} RowsGrow(d: Decoder, heard: seq<Msg>, p: nat)
    requires p <= |heard|
    ensures |AllRows(d, heard)| == TelemetryIn(d, heard)
    ensures AllRows(d, heard[..p]) <= AllRows(d, heard)
    decreases |heard|
  {
    hide Joined, Telemetry;
    var n := |heard| - 1;
    if heard != [] {
      JoinedTells(d, heard[..n], heard[n]);
      RowsGrow(d, heard[..n], if p <= n then p else n);
      if p <= n { assert heard[..n][..p] == heard[..p]; }
    }
    if p == |heard| { assert heard[..p] == heard; }
  }

  /** Every message that names a channel and carries a sample yields exactly one row, in order, with the
      chassis and the channel of its topic, its own sample, and the context last set for that
      channel before it; there are no other rows. */
  lemma RowIs(d: Decoder, heard: seq<Msg>, p: nat)
    requires p < |heard| && Telemetry(d, heard[p])
    ensures |AllRows(d, heard)| == TelemetryIn(d, heard)
    ensures TelemetryIn(d, heard[..p]) < |AllRows(d, heard)|
    ensures var row := AllRows(d, heard)[TelemetryIn(d, heard[..p])];
            Tells(d, heard[p], row) && Attributed(d, heard, p, row.key, row.context)
  {
    hide Joined, Telemetry, Tells, Attributed, LatestContext;
    var before, upto := heard[..p], heard[..p + 1];
    assert upto[..p] == before && upto[p] == heard[p];
    RowsGrow(d, heard, p + 1);
    RowsGrow(d, before, p);
    JoinedTells(d, before, heard[p]);
    var row := Joined(d, before, heard[p])[0];
    assert AllRows(d, upto) == AllRows(d, before) + [row];
    AttributedLatest(d, heard, p, row.key);
  }

  /** What is in the table or still in the buffer, over any sequence of messages, failed flushes and
      broken connections, is a subsequence of those rows. */
  lemma StoredRowsAreTold(d: Decoder, now: real, es: seq<Event>, row: Row)
    requires row in HandleAll(d, Fresh(now), es).table
    ensures var heard := Messages(es);
            exists p: nat :: p < |heard| && Tells(d, heard[p], row) && Attributed(d, heard, p, row.key, row.context)
  {
    hide AllRows, HandleAll, Handle, Attributed, Tells;
    var s, heard := HandleAll(d, Fresh(now), es), Messages(es);
    LedgerOverRuns(d, now, es);
    var i :| 0 <= i < |s.table| && s.table[i] == row;
    assert (s.table + s.buffer)[i] == row;
    MemberOfSubsequence(s.table + s.buffer, AllRows(d, heard), row);
    var p := RowHasMessage(d, heard, row);
  }

  lemma {:induction false} MemberOfSubsequence<T>(a: seq<T>, b: seq<T>, x: T)
    requires Subsequence(a, b) && x in a
    ensures x in b
    decreases b
  {
    var init := b[..|b| - 1];
    assert b == init + [b[|b| - 1]] && a == a[..|a| - 1] + [a[|a| - 1]];
    if a[|a| - 1] == b[|b| - 1] && Subsequence(a[..|a| - 1], init) {
      if x in a[..|a| - 1] { MemberOfSubsequence(a[..|a| - 1], init, x); }
    } else {
      MemberOfSubsequence(a, init, x);
    }
  }

  lemma {:induction false} RowHasMessage(d: Decoder, heard: seq<Msg>, row: Row) returns (p: nat)
    requires row in AllRows(d, heard)
    ensures p < |heard| && Tells(d, heard[p], row) && Attributed(d, heard, p, row.key, row.context)
    decreases heard
  {
    hide Joined, Tells, Attributed, LatestContext;
    var n := |heard| - 1;
    var before := heard[..n];
    if row in AllRows(d, before) {
      p := RowHasMessage(d, before, row);
      AttributedEarlier(d, heard, n, p, row.key, row.context);
    } else {
      p := n;
      JoinedTells(d, before, heard[n]);
      AttributedLatest(d, heard, n, row.key);
    }
  }

  lemma AttributedEarlier(d: Decoder, heard: seq<Msg>, n: nat, p: nat, key: Key, context: Context)
    requires p <= n <= |heard| && Attributed(d, heard[..n], p, key, context)
    ensures Attributed(d, heard, p, key, context)
  {
    hide Sets;
    assert forall i | 0 <= i < n :: heard[..n][i] == heard[i];
    forall j | LastSets(d, heard, p, key, j) ensures LastSets(d, heard[..n], p, key, j) {}
  }
}
