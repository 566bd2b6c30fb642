/**
 The MQTT ingester: every message is parsed, joined with the latest experiment context of its
 channel, buffered and flushed in batches; an error drops the connection and what it held.
 */
module Ingester {
  import opened Prelude

  const BATCH_MAX := 5000
  const BATCH_MAX_AGE_S := 1.0
  const BUFFER_HARD_CAP := 50_000

  datatype Key = Key(chassis: int, channel: int)
  datatype Context = Context(schedule: string, step: string)
  datatype Sample = Sample(
    time: real, cycle: int,
    voltage: Option<real>, current: Option<real>, tempC: Option<real>, soc: Option<real>)
  datatype Row = Row(key: Key, context: Context, sample: Sample)

  // A row that no context message preceded carries empty strings.
  const NO_CONTEXT := Context("", "")

  /** A message, its topic already split at the slashes. */
  datatype Msg = Msg(topic: seq<string>, payload: string)

  /** int() of a topic part and json.loads of a payload, each of which may fail. */
  datatype Decoder = Decoder(
    number: string -> Option<int>, context: string -> Option<Context>, sample: string -> Option<Sample>)

  predicate IsContext(m: Msg) {
    |m.topic| >= 2 && m.topic[0] == "experiment"
  }

  function KeyOf(d: Decoder, topic: seq<string>): Option<Key> {
    if |topic| != 3 then None
    else match (d.number(topic[1]), d.number(topic[2]))
      case (Some(chassis), Some(channel)) => Some(Key(chassis, channel))
      case _ => None
  }

  /** None if it does not parse; a key with None if the payload is empty, which clears the context. */
  function ParseContext(d: Decoder, m: Msg): Option<(Key, Option<Context>)> {
    match KeyOf(d, m.topic)
    case None => None
    case Some(key) =>
      if m.payload == "" then Some((key, None))
      else match d.context(m.payload)
        case None => None
        case Some(c) => Some((key, Some(c)))
  }

  function Parse(d: Decoder, m: Msg, context: map<Key, Context>): Option<Row> {
    match KeyOf(d, m.topic)
    case None => None
    case Some(key) =>
      match d.sample(m.payload)
      case None => None
      case Some(s) => Some(Row(key, if key in context then context[key] else NO_CONTEXT, s))
  }

  // ---- What should happen, told from the messages alone -------------------------------------------

  /** The context set by the last message that names this key and parses, however long ago. */
  function LatestContext(d: Decoder, heard: seq<Msg>, key: Key): Option<Context>
    decreases heard
  {
    if heard == [] then None
    else
      var m := heard[|heard| - 1];
      var parsed := if IsContext(m) then ParseContext(d, m) else None;
      if parsed.Some? && parsed.value.0 == key then parsed.value.1
      else LatestContext(d, heard[..|heard| - 1], key)
  }

  function Joined(d: Decoder, heard: seq<Msg>, m: Msg): seq<Row> {
    if IsContext(m) then []
    else match KeyOf(d, m.topic)
      case None => []
      case Some(key) =>
        match d.sample(m.payload)
        case None => []
        case Some(s) =>
          var c := LatestContext(d, heard, key);
          [Row(key, if c.Some? then c.value else NO_CONTEXT, s)]
  }

  function AllRows(d: Decoder, heard: seq<Msg>): seq<Row>
    decreases heard
  {
    if heard == [] then []
    else
      var before := heard[..|heard| - 1];
      AllRows(d, before) + Joined(d, before, heard[|heard| - 1])
  }

  // ---- Where the rows went ------------------------------------------------------------------------

  datatype Segment = Flushed(rows: seq<Row>) | Lost(rows: seq<Row>)

  function Whole(segments: seq<Segment>): seq<Row>
    decreases segments
  {
    if segments == [] then [] else Whole(segments[..|segments| - 1]) + segments[|segments| - 1].rows
  }

  function FlushedRows(segments: seq<Segment>): seq<Row>
    decreases segments
  {
    if segments == [] then []
    else
      var s := segments[|segments| - 1];
      FlushedRows(segments[..|segments| - 1]) + if s.Flushed? then s.rows else []
  }

  function LostCount(segments: seq<Segment>): nat
    decreases segments
  {
    if segments == [] then 0
    else
      var s := segments[|segments| - 1];
      LostCount(segments[..|segments| - 1]) + if s.Lost? then |s.rows| else 0
  }

  datatype State = State(
    context: map<Key, Context>, buffer: seq<Row>, lastFlush: real, table: seq<Row>, drops: nat,
    heard: seq<Msg>, segments: seq<Segment>, reconnects: nat)

  /** As the process comes up. */
  function Fresh(now: real): State {
    State(map[], [], now, [], 0, [], [], 0)
  }

  function Losses(segments: seq<Segment>): nat
    decreases segments
  {
    if segments == [] then 0
    else Losses(segments[..|segments| - 1]) + if segments[|segments| - 1].Lost? then 1 else 0
  }

  function Lookup(context: map<Key, Context>, key: Key): Option<Context> {
    if key in context then Some(context[key]) else None
  }

  /** Between any two messages. */
  ghost predicate Sound(d: Decoder, s: State) {
    && AllRows(d, s.heard) == Whole(s.segments) + s.buffer
    && s.table == FlushedRows(s.segments)
    && (forall x | x in s.segments :: |x.rows| <= BATCH_MAX)
    && Losses(s.segments) == s.reconnects
    && |s.buffer| < BATCH_MAX && s.drops == 0
    && forall key: Key :: Lookup(s.context, key) == LatestContext(d, s.heard, key)
  }

  predicate Subsequence<T(==)>(a: seq<T>, b: seq<T>)
    decreases b
  {
    if a == [] then true
    else if b == [] then false
    else if a[|a| - 1] == b[|b| - 1] && Subsequence(a[..|a| - 1], b[..|b| - 1]) then true
    else Subsequence(a, b[..|b| - 1])
  }

  lemma {:induction false} SubsequenceSkips<T>(a: seq<T>, b: seq<T>, more: seq<T>)
    requires Subsequence(a, b)
    ensures Subsequence(a, b + more)
    decreases more
  {
    if more == [] {
      assert b + more == b;
    } else {
      var init := more[..|more| - 1];
      assert (b + more)[..|b + more| - 1] == b + init;
      SubsequenceSkips(a, b, init);
    }
  }

  lemma {:induction false} SubsequenceAppends<T>(a: seq<T>, b: seq<T>, more: seq<T>)
    requires Subsequence(a, b)
    ensures Subsequence(a + more, b + more)
    decreases more
  {
    if more == [] {
      assert a + more == a && b + more == b;
    } else {
      var init := more[..|more| - 1];
      assert (a + more)[..|a + more| - 1] == a + init && (b + more)[..|b + more| - 1] == b + init;
      SubsequenceAppends(a, b, init);
    }
  }

  lemma {:induction false} FlushedInOrder(segments: seq<Segment>)
    requires forall x | x in segments :: |x.rows| <= BATCH_MAX
    ensures Subsequence(FlushedRows(segments), Whole(segments))
    ensures |Whole(segments)| == |FlushedRows(segments)| + LostCount(segments)
    ensures LostCount(segments) <= BATCH_MAX * Losses(segments)
    decreases segments
  {
    if segments != [] {
      var init, s := segments[..|segments| - 1], segments[|segments| - 1];
      assert s in segments && forall x | x in init :: x in segments;
      FlushedInOrder(init);
      if s.Flushed? {
        SubsequenceAppends(FlushedRows(init), Whole(init), s.rows);
      } else {
        SubsequenceSkips(FlushedRows(init), Whole(init), s.rows);
        assert FlushedRows(segments) == FlushedRows(init);
      }
    }
  }

  /** The ledger: every row that ever parsed is in the table, in the buffer, or lost; the table
      holds them in order; a reconnect costs at most one batch; the hard cap is never reached. */
  lemma LedgerBalances(d: Decoder, s: State)
    requires Sound(d, s)
    ensures |AllRows(d, s.heard)| == |s.table| + |s.buffer| + LostCount(s.segments)
    ensures LostCount(s.segments) <= BATCH_MAX * s.reconnects
    ensures Subsequence(s.table + s.buffer, AllRows(d, s.heard))
    ensures |s.buffer| < BATCH_MAX < BUFFER_HARD_CAP && s.drops == 0
  {
    hide AllRows, Whole, FlushedRows, LostCount, Losses, Subsequence, LatestContext;
    FlushedInOrder(s.segments);
    SubsequenceAppends(s.table, Whole(s.segments), s.buffer);
  }

  // ---- One message or failure ------------------------------------------------------------------------

  /** A message handled at `now` - if a flush falls due, it succeeds or fails, and `later` is when it is
      over or the next session has started - or a connection that breaks between messages. */
  datatype Event = Message(m: Msg, now: real, flushes: bool, later: real) | Broken(now: real)

  function NewContext(d: Decoder, m: Msg, context: map<Key, Context>): map<Key, Context> {
    match ParseContext(d, m)
    case None => context
    case Some((key, None)) => context - {key}
    case Some((key, Some(c))) => context[key := c]
  }

  /** At the hard cap the oldest row makes room. */
  function Pushed(s: State, row: Row): State {
    if |s.buffer| >= BUFFER_HARD_CAP then s.(buffer := s.buffer[1..] + [row], drops := s.drops + 1)
    else s.(buffer := s.buffer + [row])
  }

  function Taken(d: Decoder, s: State, m: Msg): State {
    var t := s.(heard := s.heard + [m]);
    match Parse(d, m, s.context)
    case None => t
    case Some(row) => Pushed(t, row)
  }

  predicate Due(s: State, now: real) {
    |s.buffer| >= BATCH_MAX || (s.buffer != [] && now - s.lastFlush > BATCH_MAX_AGE_S)
  }

  /** COPY the buffer, or lose it with the connection; either way it is empty. */
  function Emptied(s: State, copied: bool, later: real): State {
    var t := s.(buffer := [], lastFlush := later);
    if copied then t.(table := s.table + s.buffer, segments := s.segments + [Flushed(s.buffer)])
    else t.(segments := s.segments + [Lost(s.buffer)], reconnects := s.reconnects + 1, drops := 0)
  }

  function Handle(d: Decoder, s: State, e: Event): State {
    match e
    case Broken(now) => Emptied(s, false, now)
    case Message(m, now, flushes, later) =>
      if IsContext(m) then s.(heard := s.heard + [m], context := NewContext(d, m, s.context))
      else
        var t := Taken(d, s, m);
        if Due(t, now) then Emptied(t, flushes, later) else t
  }

  lemma HearContext(d: Decoder, heard: seq<Msg>, m: Msg, key: Key)
    ensures LatestContext(d, heard + [m], key)
            == var parsed := if IsContext(m) then ParseContext(d, m) else None;
               if parsed.Some? && parsed.value.0 == key then parsed.value.1 else LatestContext(d, heard, key)
  {
    assert (heard + [m])[..|heard|] == heard;
  }

  lemma HearRows(d: Decoder, heard: seq<Msg>, m: Msg)
    ensures AllRows(d, heard + [m]) == AllRows(d, heard) + Joined(d, heard, m)
  {
    assert (heard + [m])[..|heard|] == heard;
  }

  lemma OneMoreSegment(segments: seq<Segment>, s: Segment)
    ensures Whole(segments + [s]) == Whole(segments) + s.rows
    ensures FlushedRows(segments + [s]) == FlushedRows(segments) + if s.Flushed? then s.rows else []
    ensures Losses(segments + [s]) == Losses(segments) + if s.Lost? then 1 else 0
  {
    assert (segments + [s])[..|segments|] == segments;
  }

  lemma JoinIs(d: Decoder, heard: seq<Msg>, m: Msg, context: map<Key, Context>)
    requires !IsContext(m)
    requires forall key: Key :: Lookup(context, key) == LatestContext(d, heard, key)
    ensures var row := Parse(d, m, context); Joined(d, heard, m) == if row.Some? then [row.value] else []
  {
    hide LatestContext;
    var key := KeyOf(d, m.topic);
    if key.Some? {
      assert Lookup(context, key.value) == LatestContext(d, heard, key.value);
    }
  }

  lemma ContextHeard(d: Decoder, s: State, m: Msg)
    requires Sound(d, s) && IsContext(m)
    ensures Sound(d, s.(heard := s.heard + [m], context := NewContext(d, m, s.context)))
  {
    hide AllRows, Whole, FlushedRows, Losses, LatestContext;
    HearRows(d, s.heard, m);
    forall key: Key { HearContext(d, s.heard, m, key); }
  }

  /** Sound but for a batch that may be full. */
  ghost predicate Filled(d: Decoder, s: State) {
    && AllRows(d, s.heard) == Whole(s.segments) + s.buffer
    && s.table == FlushedRows(s.segments)
    && (forall x | x in s.segments :: |x.rows| <= BATCH_MAX)
    && Losses(s.segments) == s.reconnects
    && |s.buffer| <= BATCH_MAX && s.drops == 0
    && forall key: Key :: Lookup(s.context, key) == LatestContext(d, s.heard, key)
  }

  lemma TelemetryTaken(d: Decoder, s: State, m: Msg)
    requires Sound(d, s) && !IsContext(m)
    ensures Filled(d, Taken(d, s, m)) && Taken(d, s, m).buffer == s.buffer + Joined(d, s.heard, m)
  {
    hide AllRows, Whole, FlushedRows, Losses, LatestContext;
    JoinIs(d, s.heard, m, s.context);
    HearRows(d, s.heard, m);
    forall key: Key { HearContext(d, s.heard, m, key); }
  }

  lemma EmptiedIsSound(d: Decoder, s: State, copied: bool, later: real)
    requires Filled(d, s)
    ensures Sound(d, Emptied(s, copied, later))
  {
    hide AllRows, Whole, FlushedRows, Losses, LatestContext;
    OneMoreSegment(s.segments, if copied then Flushed(s.buffer) else Lost(s.buffer));
  }

  lemma HandleKeepsSound(d: Decoder, s: State, e: Event)
    requires Sound(d, s)
    ensures Sound(d, Handle(d, s, e))
  {
    hide Taken, Emptied, NewContext, AllRows, Whole, FlushedRows, Losses, LatestContext;
    match e {
      case Broken(now) => EmptiedIsSound(d, s, false, now);
      case Message(m, now, flushes, later) =>
        if IsContext(m) {
          ContextHeard(d, s, m);
        } else {
          TelemetryTaken(d, s, m);
          EmptiedIsSound(d, Taken(d, s, m), flushes, later);
        }
    }
  }

  // ---- Runs -------------------------------------------------------------------------------------------

  function HandleAll(d: Decoder, s: State, es: seq<Event>): State
    decreases es
  {
    if es == [] then s else HandleAll(d, Handle(d, s, es[0]), es[1..])
  }

  function Messages(es: seq<Event>): seq<Msg>
    decreases es
  {
    if es == [] then [] else (if es[0].Message? then [es[0].m] else []) + Messages(es[1..])
  }

  predicate Unbroken(es: seq<Event>) {
    forall e | e in es :: e.Message? && e.flushes
  }

  lemma HandleMoves(d: Decoder, s: State, e: Event)
    ensures var t := Handle(d, s, e);
            && t.heard == s.heard + (if e.Message? then [e.m] else [])
            && s.reconnects <= t.reconnects <= s.reconnects + 1
            && (e.Message? && e.flushes ==> t.reconnects == s.reconnects)
  {
  }

  lemma {:induction false} RunKeepsSound(d: Decoder, s: State, es: seq<Event>)
    requires Sound(d, s)
    ensures Sound(d, HandleAll(d, s, es))
    decreases es
  {
    hide Handle, Sound;
    if es != [] {
      HandleKeepsSound(d, s, es[0]);
      RunKeepsSound(d, Handle(d, s, es[0]), es[1..]);
    }
  }

  lemma {:induction false} RunHears(d: Decoder, s: State, es: seq<Event>)
    ensures HandleAll(d, s, es).heard == s.heard + Messages(es)
    decreases es
  {
    hide Handle;
    if es != [] {
      HandleMoves(d, s, es[0]);
      RunHears(d, Handle(d, s, es[0]), es[1..]);
      Associates(s.heard, if es[0].Message? then [es[0].m] else [], Messages(es[1..]));
    }
  }

  lemma Associates<T>(a: seq<T>, b: seq<T>, c: seq<T>)
    ensures (a + b) + c == a + (b + c)
  {
  }

  lemma {:induction false} RunKeepsSession(d: Decoder, s: State, es: seq<Event>)
    requires Unbroken(es)
    ensures HandleAll(d, s, es).reconnects == s.reconnects
    decreases es
  {
    hide Handle;
    if es != [] {
      assert es[0] in es && forall e | e in es[1..] :: e in es;
      HandleMoves(d, s, es[0]);
      RunKeepsSession(d, Handle(d, s, es[0]), es[1..]);
    }
  }

  lemma FreshIsSound(d: Decoder, now: real)
    ensures Sound(d, Fresh(now))
  {
  }

  /** The ledger over any sequence of messages, failed flushes and broken connections, from the start
      of the process; without failures nothing is missing at all. */
  lemma LedgerOverRuns(d: Decoder, now: real, es: seq<Event>)
    ensures var s, rows := HandleAll(d, Fresh(now), es), AllRows(d, Messages(es));
            && |rows| == |s.table| + |s.buffer| + LostCount(s.segments)
            && LostCount(s.segments) <= BATCH_MAX * s.reconnects
            && Subsequence(s.table + s.buffer, rows)
            && |s.buffer| < BATCH_MAX < BUFFER_HARD_CAP && s.drops == 0
            && (Unbroken(es) ==> s.table + s.buffer == rows)
  {
    hide HandleAll, Handle, LostCount, Subsequence, Unbroken, AllRows, Whole, FlushedRows, Messages;
    var s := HandleAll(d, Fresh(now), es);
    FreshIsSound(d, now);
    RunKeepsSound(d, Fresh(now), es);
    RunHears(d, Fresh(now), es);
    if Unbroken(es) { RunKeepsSession(d, Fresh(now), es); }
    assert [] + Messages(es) == Messages(es);
    LedgerBalances(d, s);
    NothingLost(s.segments);
  }

  lemma {:induction false} NothingLost(segments: seq<Segment>)
    ensures Losses(segments) == 0 ==> FlushedRows(segments) == Whole(segments)
    decreases segments
  {
    if segments != [] { NothingLost(segments[..|segments| - 1]); }
  }

  // ---- Messages by their topics --------------------------------------------------------------------

  /** The topic has three parts and names this chassis and channel. */
  predicate Names(d: Decoder, m: Msg, key: Key) {
    |m.topic| == 3 && d.number(m.topic[1]) == Some(key.chassis) && d.number(m.topic[2]) == Some(key.channel)
  }

  /** A message that a row is made of. */
  predicate Telemetry(d: Decoder, m: Msg) {
    && !IsContext(m) && |m.topic| == 3
    && d.number(m.topic[1]).Some? && d.number(m.topic[2]).Some? && d.sample(m.payload).Some?
  }

  /** A message that sets or clears the context of this channel. */
  predicate Sets(d: Decoder, m: Msg, key: Key) {
    IsContext(m) && Names(d, m, key) && (m.payload == "" || d.context(m.payload).Some?)
  }

  /** Row and message belong together. */
  ghost predicate Tells(d: Decoder, m: Msg, row: Row) {
    Telemetry(d, m) && Names(d, m, row.key) && d.sample(m.payload) == Some(row.sample)
  }

  lemma ParsedSets(d: Decoder, m: Msg, key: Key)
    ensures var parsed := if IsContext(m) then ParseContext(d, m) else None;
            && (parsed.Some? && parsed.value.0 == key <==> Sets(d, m, key))
            && (Sets(d, m, key) ==>
                  parsed.value.1 == if m.payload == "" then None else d.context(m.payload))
  {
  }

  lemma JoinedTells(d: Decoder, heard: seq<Msg>, m: Msg)
    ensures |Joined(d, heard, m)| == if Telemetry(d, m) then 1 else 0
    ensures Telemetry(d, m) ==>
              var row := Joined(d, heard, m)[0];
              && Tells(d, m, row)
              && row.context == (var c := LatestContext(d, heard, row.key); if c.Some? then c.value else NO_CONTEXT)
  {
    hide LatestContext;
  }

  // ---- The loop -------------------------------------------------------------------------------------

  class Ingester {
    const decoder: Decoder
    var context: map<Key, Context>
    var buffer: seq<Row>
    var lastFlush: real
    var drops: nat
    var table: seq<Row>

    ghost var heard: seq<Msg>
    ghost var segments: seq<Segment>
    ghost var reconnects: nat

    ghost function View(): State
      reads this
    {
      State(context, buffer, lastFlush, table, drops, heard, segments, reconnects)
    }

    ghost predicate Valid()
      reads this
    {
      Sound(decoder, View())
    }

    constructor (d: Decoder, now: real)
      ensures Valid() && decoder == d && View() == Fresh(now)
    {
      decoder, context, buffer, table, lastFlush, drops := d, map[], [], [], now, 0;
      heard, segments, reconnects := [], [], 0;
    }

    method HearContextMessage(m: Msg, now: real)
      requires Valid() && IsContext(m)
      modifies this`context, this`heard
      ensures Valid() && View() == Handle(decoder, old(View()), Message(m, now, true, now))
      ensures forall key: Key ::
                Lookup(context, key) == if !Sets(decoder, m, key) then Lookup(old(context), key)
                                        else if m.payload == "" then None else decoder.context(m.payload)
    {
      hide Sound, ParseContext, Sets;
      forall key: Key { ParsedSets(decoder, m, key); }
      ContextHeard(decoder, View(), m);
      var parsed := ParseContext(decoder, m);
      heard := heard + [m];
      if parsed.Some? {
        var (key, ctx) := parsed.value;
        if ctx.None? {
          context := context - {key};
        } else {
          context := context[key := ctx.value];
        }
      }
    }

    method Push(row: Row)
      modifies this`buffer, this`drops
      ensures View() == Pushed(old(View()), row)
      ensures if |old(buffer)| >= BUFFER_HARD_CAP
              then buffer == old(buffer)[1..] + [row] && drops == old(drops) + 1
              else buffer == old(buffer) + [row] && drops == old(drops)
    {
      if |buffer| >= BUFFER_HARD_CAP {
        buffer, drops := buffer[1..], drops + 1;
      }
      buffer := buffer + [row];
    }

    /** A message that is not a context message: at most one row more, and a flush when the batch
        is full or old enough.  A failed flush has already emptied the buffer; a new session starts. */
    method HearTelemetryMessage(m: Msg, now: real, flushes: bool, later: real) returns (alive: bool)
      requires Valid() && !IsContext(m)
      modifies this`buffer, this`drops, this`table, this`lastFlush, this`heard, this`segments, this`reconnects
      ensures Valid() && View() == Handle(decoder, old(View()), Message(m, now, flushes, later))
      ensures var rows := old(buffer) + Joined(decoder, old(heard), m);
              var due := |rows| >= BATCH_MAX || (rows != [] && now - old(lastFlush) > BATCH_MAX_AGE_S);
              && alive == (!due || flushes)
              && buffer == (if due then [] else rows)
              && table == old(table) + (if due && flushes then rows else [])
              && reconnects == old(reconnects) + (if alive then 0 else 1)
              && lastFlush == (if due then later else old(lastFlush))
              && (!Telemetry(decoder, m) ==> rows == old(buffer))
              && (Telemetry(decoder, m) ==>
                    |rows| == |old(buffer)| + 1 && Tells(decoder, m, rows[|rows| - 1]))
    {
      hide Sound, Joined, Pushed, Telemetry, Tells;
      JoinedTells(decoder, heard, m);
      HandleKeepsSound(decoder, View(), Message(m, now, flushes, later));
      TelemetryTaken(decoder, View(), m);
      var row := Parse(decoder, m, context);
      heard := heard + [m];
      if row.Some? {
        Push(row.value);
      }
      alive := true;
      if |buffer| >= BATCH_MAX || (buffer != [] && now - lastFlush > BATCH_MAX_AGE_S) {
        alive := Flush(flushes, later);
      }
    }

    /** COPY the batch, or lose it with the connection and start a new session. */
    method Flush(succeeds: bool, later: real) returns (ok: bool)
      modifies this`buffer, this`drops, this`table, this`lastFlush, this`segments, this`reconnects
      ensures ok == succeeds && View() == Emptied(old(View()), succeeds, later)
      ensures buffer == [] && lastFlush == later && table == old(table) + if ok then old(buffer) else []
      ensures segments == old(segments) + [if ok then Flushed(old(buffer)) else Lost(old(buffer))]
      ensures reconnects == old(reconnects) + if ok then 0 else 1
    {
      var batch := buffer;
      buffer := [];
      ok := succeeds;
      if ok {
        table, segments, lastFlush := table + batch, segments + [Flushed(batch)], later;
      } else {
        segments := segments + [Lost(batch)];
        StartSession(later);
      }
    }

    /** A new session has an empty buffer, while the context survives. */
    method StartSession(now: real)
      modifies this`buffer, this`drops, this`lastFlush, this`reconnects
      ensures View() == old(View()).(buffer := [], lastFlush := now, drops := 0, reconnects := old(reconnects) + 1)
    {
      reconnects := reconnects + 1;
      buffer, drops, lastFlush := [], 0, now;
    }

    /** The connection broke between messages. */
    method Reconnect(now: real)
      requires Valid()
      modifies this`buffer, this`drops, this`lastFlush, this`segments, this`reconnects
      ensures Valid() && View() == Handle(decoder, old(View()), Broken(now))
      ensures buffer == [] && drops == 0 && lastFlush == now && reconnects == old(reconnects) + 1
      ensures heard == old(heard) && segments == old(segments) + [Lost(old(buffer))]
    {
      hide Sound;
      HandleKeepsSound(decoder, View(), Broken(now));
      segments := segments + [Lost(buffer)];
      StartSession(now);
    }
  }
}
