/** The server's device_events table and its ingestion of the devices' logs (app/events.py, app/main.py,
  * db/migrations/017_add_device_events.sql), and delivery end to end: record, collect, ingest. */
module EventIngestion {
  import opened Wrappers
  import opened EventLog

  type DeviceId = nat

  /** A row: `deviceSeq` is set on the events a device has reported about itself. */
  datatype Row = Row(device: DeviceId, deviceSeq: Option<nat>, event: Event)

  predicate SameKey(r: Row, device: DeviceId, deviceSeq: int) {
    r.device == device && r.deviceSeq.Some? && r.deviceSeq.value == deviceSeq
  }

  predicate HasKey(rows: seq<Row>, device: DeviceId, deviceSeq: int) {
    exists k :: 0 <= k < |rows| && SameKey(rows[k], device, deviceSeq)
  }

  /** INSERT ... ON CONFLICT (device_id, device_seq) DO NOTHING */
  function InsertIfAbsent(rows: seq<Row>, r: Row): seq<Row> {
    if r.deviceSeq.Some? && HasKey(rows, r.device, r.deviceSeq.value) then rows else rows + [r]
  }

  function Ingest(rows: seq<Row>, device: DeviceId, events: seq<Event>): seq<Row> {
    if events == [] then rows
    else
      var n := |events| - 1;
      InsertIfAbsent(Ingest(rows, device, events[..n]), Row(device, Some(events[n].seqNo), events[n]))
  }

  /** The table and its two writers. */
  class DeviceEvents {
    var rows: seq<Row>

    constructor ()
      ensures rows == []
    {
      rows := [];
    }

    /** A server event always lands; a device event lands exactly when its key is new. */
    method RecordEvent(device: DeviceId, deviceSeq: Option<nat>, event: Event)
      modifies this
      ensures rows == InsertIfAbsent(old(rows), Row(device, deviceSeq, event))
      ensures |rows| == |old(rows)| <==> deviceSeq.Some? && HasKey(old(rows), device, deviceSeq.value)
    {
      if deviceSeq.Some? && HasKey(rows, device, deviceSeq.value) {
        return;
      }
      rows := rows + [Row(device, deviceSeq, event)];
    }

    method IngestDeviceEvents(device: DeviceId, events: seq<Event>)
      modifies this
      ensures rows == Ingest(old(rows), device, events)
    {
      for k := 0 to |events|
        invariant rows == Ingest(old(rows), device, events[..k])
      {
        RecordEvent(device, Some(events[k].seqNo), events[k]);
        assert events[..k + 1][..k] == events[..k];
      }
      assert events[..|events|] == events;
    }
  }

  // ---------- What ingestion keeps ----------

  /** No device event is stored twice. */
  ghost predicate KeysUnique(rows: seq<Row>) {
    forall i, j :: 0 <= i < j < |rows| && rows[i].deviceSeq.Some? ==>
      !(rows[j].device == rows[i].device && rows[j].deviceSeq == rows[i].deviceSeq)
  }

  lemma {:induction false} IngestKeepsRows(rows: seq<Row>, device: DeviceId, events: seq<Event>)
    ensures |rows| <= |Ingest(rows, device, events)|
    ensures Ingest(rows, device, events)[..|rows|] == rows
    ensures KeysUnique(rows) ==> KeysUnique(Ingest(rows, device, events))
    ensures forall e :: e in events ==> HasKey(Ingest(rows, device, events), device, e.seqNo)
    decreases |events|
  {
    if events == [] {
      assert rows[..|rows|] == rows;
    } else {
      var n := |events| - 1;
      IngestKeepsRows(rows, device, events[..n]);
      var before := Ingest(rows, device, events[..n]);
      var after := Ingest(rows, device, events);
      if !HasKey(before, device, events[n].seqNo) {
        assert after[..|rows|] == before[..|rows|];
        assert SameKey(after[|before|], device, events[n].seqNo);
      }
      forall e | e in events ensures HasKey(after, device, e.seqNo) {
        if e in events[..n] {
          var k :| 0 <= k < |before| && SameKey(before[k], device, e.seqNo);
          assert SameKey(after[k], device, e.seqNo);
        } else {
          assert e == events[n];
        }
      }
    }
  }

  /** Ingesting lines the table already has changes nothing. */
  lemma {:induction false} KnownLinesChangeNothing(rows: seq<Row>, device: DeviceId, events: seq<Event>)
    requires forall e :: e in events ==> HasKey(rows, device, e.seqNo)
    ensures Ingest(rows, device, events) == rows
    decreases |events|
  {
    if events != [] {
      var n := |events| - 1;
      assert events[n] in events;
      KnownLinesChangeNothing(rows, device, events[..n]);
    }
  }

  /** Re-sending the same log is harmless. */
  lemma IngestIsIdempotent(rows: seq<Row>, device: DeviceId, events: seq<Event>)
    ensures Ingest(Ingest(rows, device, events), device, events) == Ingest(rows, device, events)
  {
    IngestKeepsRows(rows, device, events);
    KnownLinesChangeNothing(Ingest(rows, device, events), device, events);
  }

  // ---------- Delivery ----------

  /** One device's events as stored, oldest row first. */
  function Stored(rows: seq<Row>, device: DeviceId): seq<Event> {
    if rows == [] then []
    else
      var n := |rows| - 1;
      Stored(rows[..n], device) + if rows[n].device == device && rows[n].deviceSeq.Some? then [rows[n].event] else []
  }

  lemma StoredSnoc(rows: seq<Row>, r: Row, device: DeviceId)
    ensures Stored(rows + [r], device) ==
      Stored(rows, device) + if r.device == device && r.deviceSeq.Some? then [r.event] else []
  {
    assert (rows + [r])[..|rows|] == rows;
  }

  /** The device, the server's table, and the log a poll has collected but not yet committed. */
  datatype System = System(history: seq<Event>, rows: seq<Row>, collected: Option<seq<Event>>, collectedAt: nat,
                           committedAt: nat)

  datatype Action =
    | Record(ts: nat, kind: string, message: string, details: string)
    | Collect                              // the SSH call returns the log as it is now
    | Commit                               // the ingest transaction commits
    | Lose                                 // the poll fails before committing
    | Elsewhere(device: DeviceId, event: Event, deviceSeq: Option<nat>)  // the server records something else

  /** The polled device is device 0. `collectedAt` and `committedAt` count the events recorded when the
    * pending and the last committed log were read. */
  function Step(s: System, a: Action): System {
    match a
    case Record(ts, kind, message, details) =>
      s.(history := s.history + [Event(|s.history| + 1, ts, kind, message, details)])
    case Collect => s.(collected := Some(Tail(s.history)), collectedAt := |s.history|)
    case Commit =>
      if s.collected.None? then s
      else s.(rows := Ingest(s.rows, 0, s.collected.value), collected := None, committedAt := s.collectedAt)
    case Lose => s.(collected := None)
    case Elsewhere(device, event, deviceSeq) =>
      if device == 0 && deviceSeq.Some? then s else s.(rows := InsertIfAbsent(s.rows, Row(device, deviceSeq, event)))
  }

  function Run(s: System, actions: seq<Action>): System
    decreases |actions|
  {
    if actions == [] then s else Run(Step(s, actions[0]), actions[1..])
  }

  const START := System([], [], None, 0, 0)

  /** No more than a full log of events separates what is being committed from what was last. */
  predicate KeepsUp(s: System, a: Action) {
    a == Commit && s.collected.Some? ==> s.collectedAt <= s.committedAt + 50
  }

  ghost predicate AlwaysKeepsUp(s: System, actions: seq<Action>)
    decreases |actions|
  {
    actions == [] || (KeepsUp(s, actions[0]) && AlwaysKeepsUp(Step(s, actions[0]), actions[1..]))
  }

  /** Device 0's rows are exactly the first n events of the history, in order, each stored once. */
  ghost predicate Stores(rows: seq<Row>, history: seq<Event>, n: nat)
    requires n <= |history|
  {
    && KeysUnique(rows) && WellLabelled(rows)
    && Stored(rows, 0) == history[..n]
    && forall k :: HasKey(rows, 0, k) <==> 1 <= k <= n
  }

  /** A device row's key is the number of the event it holds. */
  ghost predicate WellLabelled(rows: seq<Row>) {
    forall k :: 0 <= k < |rows| && rows[k].device == 0 && rows[k].deviceSeq.Some? ==>
      rows[k].deviceSeq.value == rows[k].event.seqNo
  }

  ghost predicate Delivered(s: System) {
    && Numbered(s.history)
    && s.committedAt <= |s.history| && Stores(s.rows, s.history, s.committedAt)
    && (s.collected.Some? ==>
          s.committedAt <= s.collectedAt <= |s.history| && s.collected.value == Tail(s.history[..s.collectedAt]))
  }

  lemma AppendKeys(rows: seq<Row>, r: Row, k: int)
    ensures HasKey(rows + [r], 0, k) <==> HasKey(rows, 0, k) || SameKey(r, 0, k)
  {
    var rows' := rows + [r];
    if HasKey(rows, 0, k) {
      var i :| 0 <= i < |rows| && SameKey(rows[i], 0, k);
      assert SameKey(rows'[i], 0, k);
    }
    if SameKey(r, 0, k) {
      assert SameKey(rows'[|rows|], 0, k);
    }
  }

  lemma InsertNext(rows: seq<Row>, history: seq<Event>, n: nat)
    requires Numbered(history) && n < |history| && Stores(rows, history, n)
    ensures Stores(InsertIfAbsent(rows, Row(0, Some(history[n].seqNo), history[n])), history, n + 1)
  {
    var r := Row(0, Some(n + 1), history[n]);
    assert !HasKey(rows, 0, n + 1);
    StoredSnoc(rows, r, 0);
    forall k ensures HasKey(rows + [r], 0, k) <==> 1 <= k <= n + 1 {
      AppendKeys(rows, r, k);
    }
    AppendKeepsUnique(rows, r);
    assert history[..n + 1] == history[..n] + [history[n]];
  }

  lemma AppendKeepsUnique(rows: seq<Row>, r: Row)
    requires KeysUnique(rows) && r.device == 0 && r.deviceSeq.Some? && !HasKey(rows, 0, r.deviceSeq.value)
    ensures KeysUnique(rows + [r])
  {
    forall i | 0 <= i < |rows| ensures !SameKey(rows[i], 0, r.deviceSeq.value) {
    }
  }

  /** Ingesting consecutive events, some already stored, extends the stored history without a gap. */
  lemma {:induction false} IngestExtends(rows: seq<Row>, history: seq<Event>, from: nat, committed: nat, upTo: nat)
    requires Numbered(history) && from <= committed <= |history| && from <= upTo <= |history|
    requires Stores(rows, history, committed)
    ensures Stores(Ingest(rows, 0, history[from..upTo]), history, if upTo > committed then upTo else committed)
    decreases upTo - from
  {
    if upTo == from {
      assert history[from..upTo] == [];
    } else {
      IngestExtends(rows, history, from, committed, upTo - 1);
      IngestSlice(rows, history, from, upTo);
      var before := Ingest(rows, 0, history[from..upTo - 1]);
      if upTo > committed {
        InsertNext(before, history, upTo - 1);
      } else {
        KnownIsSkipped(before, history, committed, upTo - 1);
      }
    }
  }

  lemma IngestSlice(rows: seq<Row>, history: seq<Event>, from: nat, upTo: nat)
    requires from < upTo <= |history|
    ensures var e := history[upTo - 1];
      Ingest(rows, 0, history[from..upTo]) ==
        InsertIfAbsent(Ingest(rows, 0, history[from..upTo - 1]), Row(0, Some(e.seqNo), e))
  {
    assert history[from..upTo][..upTo - 1 - from] == history[from..upTo - 1];
  }

  lemma KnownIsSkipped(rows: seq<Row>, history: seq<Event>, n: nat, k: nat)
    requires Numbered(history) && k < n <= |history| && Stores(rows, history, n)
    ensures InsertIfAbsent(rows, Row(0, Some(history[k].seqNo), history[k])) == rows
  {
    assert HasKey(rows, 0, k + 1);
  }

  lemma StepDelivers(s: System, a: Action)
    requires Delivered(s) && KeepsUp(s, a)
    ensures Delivered(Step(s, a))
  {
    match a
    case Record(ts, kind, message, details) =>
      var h' := Step(s, a).history;
      assert h'[..s.committedAt] == s.history[..s.committedAt];
      if s.collected.Some? {
        assert h'[..s.collectedAt] == s.history[..s.collectedAt];
      }
    case Collect => assert s.history[..|s.history|] == s.history;
    case Commit =>
      if s.collected.Some? {
        var to := s.collectedAt;
        var from := if to > MAX_LINES then to - MAX_LINES else 0;
        assert s.collected.value == s.history[from..to];
        IngestExtends(s.rows, s.history, from, s.committedAt, to);
      }
    case Lose =>
    case Elsewhere(device, event, deviceSeq) =>
      if device != 0 || deviceSeq.None? {
        ElsewhereDoesNotMatter(s.rows, Row(device, deviceSeq, event));
      }
  }

  lemma ElsewhereDoesNotMatter(rows: seq<Row>, r: Row)
    requires KeysUnique(rows) && (r.device != 0 || r.deviceSeq.None?)
    ensures var rows' := InsertIfAbsent(rows, r);
      && KeysUnique(rows') && (WellLabelled(rows) ==> WellLabelled(rows'))
      && Stored(rows', 0) == Stored(rows, 0)
      && forall k :: HasKey(rows', 0, k) <==> HasKey(rows, 0, k)
  {
    var rows' := InsertIfAbsent(rows, r);
    if rows' != rows {
      StoredSnoc(rows, r, 0);
      forall k ensures HasKey(rows', 0, k) <==> HasKey(rows, 0, k) {
        AppendKeys(rows, r, k);
      }
    }
  }

  lemma {:induction false} RunDelivers(s: System, actions: seq<Action>)
    requires Delivered(s) && AlwaysKeepsUp(s, actions)
    ensures Delivered(Run(s, actions))
    decreases |actions|
  {
    if actions != [] {
      StepDelivers(s, actions[0]);
      RunDelivers(Step(s, actions[0]), actions[1..]);
    }
  }

  /** Every event is delivered exactly once and in order: however often polls fail or repeat, as long
    * as at most 50 events fall between two committed logs, the device's rows are the full history as
    * of the last committed one. */
  lemma ExactlyOnce(actions: seq<Action>)
    requires AlwaysKeepsUp(START, actions)
    ensures var s := Run(START, actions);
      s.committedAt <= |s.history| && Stored(s.rows, 0) == s.history[..s.committedAt] && KeysUnique(s.rows)
  {
    RunDelivers(START, actions);
  }

  // ---------- Falling behind ----------

  /** Event n is not in the table, and no log collected from here on will hold it. */
  ghost predicate Missing(s: System, n: nat) {
    && Numbered(s.history) && WellLabelled(s.rows) && !HasKey(s.rows, 0, n)
    && 1 <= n && n + MAX_LINES <= s.committedAt <= |s.history|
    && (s.collected.Some? ==>
          s.committedAt <= s.collectedAt <= |s.history| && s.collected.value == Tail(s.history[..s.collectedAt]))
  }

  /** A log holds none of the events recorded fifty or more events before it was read. */
  lemma TailLacks(history: seq<Event>, upTo: nat, n: nat)
    requires Numbered(history) && n + MAX_LINES <= upTo <= |history|
    ensures var log := Tail(history[..upTo]); forall k :: 0 <= k < |log| ==> log[k].seqNo != n
  {
    assert Tail(history[..upTo]) == history[upTo - MAX_LINES..upTo];
  }

  /** Ingesting a log without event n does not bring it. */
  lemma CommitMisses(s: System, n: nat)
    requires s.collected.Some? && Numbered(s.history) && WellLabelled(s.rows) && !HasKey(s.rows, 0, n)
    requires 1 <= n && n + MAX_LINES <= s.collectedAt <= |s.history|
    requires s.collected.value == Tail(s.history[..s.collectedAt])
    ensures Missing(Step(s, Commit), n)
  {
    TailLacks(s.history, s.collectedAt, n);
    OnlyListedKeys(s.rows, s.collected.value, n);
  }

  lemma StepKeepsMissing(s: System, a: Action, n: nat)
    requires Missing(s, n)
    ensures Missing(Step(s, a), n)
  {
    match a
    case Record(ts, kind, message, details) =>
      if s.collected.Some? {
        assert Step(s, a).history[..s.collectedAt] == s.history[..s.collectedAt];
      }
    case Collect => assert s.history[..|s.history|] == s.history;
    case Commit =>
      if s.collected.Some? {
        CommitMisses(s, n);
      }
    case Lose =>
    case Elsewhere(device, event, deviceSeq) => AppendKeys(s.rows, Row(device, deviceSeq, event), n);
  }

  lemma {:induction false} MissingForGood(s: System, actions: seq<Action>, n: nat)
    requires Missing(s, n)
    ensures Missing(Run(s, actions), n)
    decreases |actions|
  {
    if actions != [] {
      StepKeepsMissing(s, actions[0], n);
      MissingForGood(Step(s, actions[0]), actions[1..], n);
    }
  }

  /** The first commit that falls behind the limit leaves out the next event, and whatever happens afterwards, no
    * poll brings it. */
  lemma FallingBehindLosesEvents(s: System, later: seq<Action>)
    requires Delivered(s) && !KeepsUp(s, Commit)
    ensures var end := Run(Step(s, Commit), later);
      s.committedAt + 1 <= end.committedAt <= |end.history| && !HasKey(end.rows, 0, s.committedAt + 1)
  {
    CommitMisses(s, s.committedAt + 1);
    MissingForGood(Step(s, Commit), later, s.committedAt + 1);
  }

  /** With an event missing, what is stored is not the history up to the last commit. */
  lemma MissingIsIncomplete(s: System, n: nat)
    requires Missing(s, n)
    ensures Stored(s.rows, 0) != s.history[..s.committedAt]
  {
    StoredKeys(s.rows, n);
    var kept := s.history[..s.committedAt];
    assert kept[n - 1].seqNo == n && kept[n - 1] in kept;
  }

  lemma {:induction false} CompleteExactlyFrom(s: System, actions: seq<Action>)
    requires Delivered(s)
    ensures var end := Run(s, actions);
      && end.committedAt <= |end.history|
      && (Stored(end.rows, 0) == end.history[..end.committedAt] <==> AlwaysKeepsUp(s, actions))
    decreases |actions|
  {
    if actions != [] {
      var next := Step(s, actions[0]);
      if KeepsUp(s, actions[0]) {
        StepDelivers(s, actions[0]);
        CompleteExactlyFrom(next, actions[1..]);
      } else {
        CommitMisses(s, s.committedAt + 1);
        MissingForGood(next, actions[1..], s.committedAt + 1);
        MissingIsIncomplete(Run(next, actions[1..]), s.committedAt + 1);
      }
    }
  }

  /** The limit is exact, over every run: the device's rows are its history up to the last commit if and only if
    * no commit of the run came more than fifty events after the one before it. */
  lemma CompleteExactlyWhenKeepsUp(actions: seq<Action>)
    ensures var s := Run(START, actions);
      && s.committedAt <= |s.history|
      && (Stored(s.rows, 0) == s.history[..s.committedAt] <==> AlwaysKeepsUp(START, actions))
  {
    CompleteExactlyFrom(START, actions);
  }

  lemma {:induction false} OnlyListedKeys(rows: seq<Row>, events: seq<Event>, n: int)
    requires !HasKey(rows, 0, n) && forall k :: 0 <= k < |events| ==> events[k].seqNo != n
    requires WellLabelled(rows)
    ensures !HasKey(Ingest(rows, 0, events), 0, n) && WellLabelled(Ingest(rows, 0, events))
    decreases |events|
  {
    if events != [] {
      OnlyListedKeys(rows, events[..|events| - 1], n);
    }
  }

  lemma {:induction false} StoredKeys(rows: seq<Row>, n: int)
    requires WellLabelled(rows) && forall k :: 0 <= k < |rows| ==> !SameKey(rows[k], 0, n)
    ensures forall e :: e in Stored(rows, 0) ==> e.seqNo != n
    decreases |rows|
  {
    if rows != [] {
      var m := |rows| - 1;
      StoredKeys(rows[..m], n);
      assert !SameKey(rows[m], 0, n);
    }
  }

  /** What the numbering rests on: should the device's counter start over, say by a power cut inside its write,
    * the server takes every event up to the last number it has stored for one it knows, and drops it. */
  lemma RestartedNumbersAreDropped(actions: seq<Action>, events: seq<Event>)
    requires AlwaysKeepsUp(START, actions)
    requires var s := Run(START, actions); forall e :: e in events ==> 1 <= e.seqNo <= s.committedAt
    ensures var s := Run(START, actions); Ingest(s.rows, 0, events) == s.rows
  {
    RunDelivers(START, actions);
    var s := Run(START, actions);
    forall e | e in events ensures HasKey(s.rows, 0, e.seqNo) {
      assert 1 <= e.seqNo <= s.committedAt;
    }
    KnownLinesChangeNothing(s.rows, 0, events);
  }
}
