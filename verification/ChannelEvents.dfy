/** channel_changed events (app/main.py, _record_channel_change_if_any and its call in _ingest_collect): what
  * they say about the telemetry they were derived from. */
module ChannelEvents {
  import opened Wrappers

  type DeviceId = nat

  /** Only the first two have a channel parameter, so only they get events. */
  datatype Radio = Halow | Wifi24 | OtherRadio(name: string)

  datatype Key = Key(device: DeviceId, radio: Radio)

  /** A telemetry row; `time` is microseconds. Rows are listed in order of time. */
  datatype Reading = Reading(key: Key, time: int, channel: Option<int>)

  datatype Status = Pending | Applied | Acked | Reverted | UnknownOutcome

  /** What the lookup of a commanding command sees of a commands row. */
  datatype Command = Command(key: Key, channel: int, status: Status, appliedAt: Option<int>)

  datatype Change = Change(key: Key, before: int, after: int, commanded: bool)

  const LOOKBACK: int := 10 * 60 * 1_000_000

  /** SELECT channel ... ORDER BY time DESC LIMIT 1: absent and NULL look the same. */
  function LatestChannel(rows: seq<Reading>, k: Key): Option<int> {
    if rows == [] then None
    else if rows[|rows| - 1].key == k then rows[|rows| - 1].channel
    else LatestChannel(rows[..|rows| - 1], k)
  }

  predicate Commanding(c: Command, k: Key, channel: int, now: int) {
    && c.key == k && (c.status == Applied || c.status == Acked)
    && c.channel == channel && c.appliedAt.Some? && c.appliedAt.value > now - LOOKBACK
  }

  predicate IsCommanded(commands: seq<Command>, k: Key, channel: int, now: int) {
    exists j :: 0 <= j < |commands| && Commanding(commands[j], k, channel, now)
  }

  function Changed(rows: seq<Reading>, r: Reading, commands: seq<Command>): seq<Change> {
    var before := LatestChannel(rows, r.key);
    if r.key.radio.OtherRadio? || r.channel.None? || before.None? || before == r.channel then []
    else [Change(r.key, before.value, r.channel.value, IsCommanded(commands, r.key, r.channel.value, r.time))]
  }

  /** The telemetry table and the channel_changed events. */
  class Telemetry {
    var rows: seq<Reading>
    var events: seq<Change>

    constructor ()
      ensures rows == [] && events == []
    {
      rows, events := [], [];
    }

    method RecordChannelChangeIfAny(r: Reading, commands: seq<Command>)
      modifies this`events
      ensures events == old(events) + Changed(rows, r, commands)
    {
      if r.channel.None? || r.key.radio.OtherRadio? {
        return;
      }
      var before := LatestChannel(rows, r.key);
      if before.None? || before == r.channel {
        return;
      }
      var commanded := false;
      for j := 0 to |commands|
        invariant commanded <==> exists i :: 0 <= i < j && Commanding(commands[i], r.key, r.channel.value, r.time)
      {
        commanded := commanded || Commanding(commands[j], r.key, r.channel.value, r.time);
      }
      events := events + [Change(r.key, before.value, r.channel.value, commanded)];
    }

    /** One radio of one collect result: the event first, then the row. */
    method Ingest(r: Reading, commands: seq<Command>)
      modifies this
      ensures rows == old(rows) + [r] && events == old(events) + Changed(old(rows), r, commands)
    {
      RecordChannelChangeIfAny(r, commands);
      rows := rows + [r];
    }
  }

  // ---------- Runs over all devices and radios ----------

  datatype Poll = Poll(reading: Reading, commands: seq<Command>)

  datatype Tables = Tables(rows: seq<Reading>, events: seq<Change>)

  function Run(polls: seq<Poll>): Tables {
    if polls == [] then Tables([], [])
    else
      var n := |polls| - 1;
      var t := Run(polls[..n]);
      var p := polls[n];
      Tables(t.rows + [p.reading], t.events + Changed(t.rows, p.reading, p.commands))
  }

  // ---------- Which polls record an event, and whether it is commanded ----------

  /** The j-th poll is the radio's last one before the k-th. */
  predicate Precedes(polls: seq<Poll>, j: nat, k: nat)
    requires j < k < |polls|
  {
    polls[j].reading.key == polls[k].reading.key &&
    forall i :: j < i < k ==> polls[i].reading.key != polls[k].reading.key
  }

  /** From the j-th to the k-th poll the channel of a radio with a channel parameter has changed, both known. */
  predicate ChangesFrom(polls: seq<Poll>, j: nat, k: nat)
    requires j < k < |polls|
  {
    var before, r := polls[j].reading, polls[k].reading;
    && Precedes(polls, j, k) && (r.key.radio == Halow || r.key.radio == Wifi24)
    && before.channel.Some? && r.channel.Some? && before.channel.value != r.channel.value
  }

  /** Some command of the device and radio for the new channel, applied or acked, was applied less than ten minutes
    * before the poll. */
  predicate RecentlyCommanded(p: Poll) {
    var r := p.reading;
    exists i :: 0 <= i < |p.commands| && var c := p.commands[i];
      && c.key == r.key && Some(c.channel) == r.channel && (c.status == Applied || c.status == Acked)
      && c.appliedAt.Some? && r.time - c.appliedAt.value < 600_000_000
  }

  /** The event of the k-th poll. */
  predicate RecordedAt(polls: seq<Poll>, k: nat, e: Change)
    requires k < |polls|
  {
    && e.key == polls[k].reading.key && Some(e.after) == polls[k].reading.channel
    && (exists j :: 0 <= j < k && ChangesFrom(polls, j, k) && Some(e.before) == polls[j].reading.channel)
    && (e.commanded <==> RecentlyCommanded(polls[k]))
  }

  function Readings(polls: seq<Poll>): seq<Reading> {
    seq(|polls|, i requires 0 <= i < |polls| => polls[i].reading)
  }

  lemma {:induction false} RowsAreReadings(polls: seq<Poll>)
    ensures Run(polls).rows == Readings(polls)
    decreases |polls|
  {
    if polls != [] {
      var n := |polls| - 1;
      RowsAreReadings(polls[..n]);
      assert Readings(polls) == Readings(polls[..n]) + [polls[n].reading];
    }
  }

  lemma {:induction false} LatestRow(rows: seq<Reading>, key: Key) returns (j: int)
    ensures -1 <= j < |rows| && forall i :: j < i < |rows| ==> rows[i].key != key
    ensures j >= 0 ==> rows[j].key == key
    ensures LatestChannel(rows, key) == if j >= 0 then rows[j].channel else None
    decreases |rows|
  {
    if rows == [] {
      j := -1;
    } else if rows[|rows| - 1].key == key {
      j := |rows| - 1;
    } else {
      j := LatestRow(rows[..|rows| - 1], key);
    }
  }

  lemma CommandedExactly(p: Poll)
    requires p.reading.channel.Some?
    ensures IsCommanded(p.commands, p.reading.key, p.reading.channel.value, p.reading.time) <==> RecentlyCommanded(p)
  {
    if IsCommanded(p.commands, p.reading.key, p.reading.channel.value, p.reading.time) {
      var i :| 0 <= i < |p.commands| &&
               Commanding(p.commands[i], p.reading.key, p.reading.channel.value, p.reading.time);
      assert p.commands[i].key == p.reading.key;
    }
    if RecentlyCommanded(p) {
      var i :| 0 <= i < |p.commands| && var c := p.commands[i];
        && c.key == p.reading.key && Some(c.channel) == p.reading.channel && (c.status == Applied || c.status == Acked)
        && c.appliedAt.Some? && p.reading.time - c.appliedAt.value < 600_000_000;
      assert Commanding(p.commands[i], p.reading.key, p.reading.channel.value, p.reading.time);
    }
  }

  lemma OnlyOnePrecedes(polls: seq<Poll>, i: nat, j: nat, k: nat)
    requires i < k < |polls| && j < k && Precedes(polls, i, k) && Precedes(polls, j, k)
    ensures i == j
  {
  }

  /** What the poll at the end adds, j being its radio's last poll before it, or -1. */
  lemma AddsChange(polls: seq<Poll>, rows: seq<Reading>, j: int, k: nat)
    requires -1 <= j < k < |polls|
    requires LatestChannel(rows, polls[k].reading.key) == if j >= 0 then polls[j].reading.channel else None
    requires j >= 0 ==> Precedes(polls, j, k)
    ensures var added := Changed(rows, polls[k].reading, polls[k].commands);
      if j >= 0 && ChangesFrom(polls, j, k) then |added| == 1 && RecordedAt(polls, k, added[0]) else added == []
  {
    if polls[k].reading.channel.Some? {
      CommandedExactly(polls[k]);
    }
  }

  /** A poll records an event exactly when it finds its radio's channel changed since that radio's last poll, and the
    * event says whether a recent command asked for that. */
  lemma PollRecordsExactly(polls: seq<Poll>) returns (added: seq<Change>)
    requires polls != []
    ensures Run(polls).events == Run(polls[..|polls| - 1]).events + added && |added| <= 1
    ensures var n := |polls| - 1; added == [] ==> forall j :: 0 <= j < n ==> !ChangesFrom(polls, j, n)
    ensures added != [] ==> RecordedAt(polls, |polls| - 1, added[0])
  {
    var n := |polls| - 1;
    var rows := Run(polls[..n]).rows;
    RowsAreReadings(polls[..n]);
    var j := LatestRow(rows, polls[n].reading.key);
    assert j >= 0 ==> rows[j] == polls[j].reading;
    forall i | j < i < n ensures polls[i].reading.key != polls[n].reading.key {
      assert rows[i] == polls[i].reading;
    }
    AddsChange(polls, rows, j, n);
    added := Changed(rows, polls[n].reading, polls[n].commands);
    forall i | 0 <= i < n && Precedes(polls, i, n) ensures i == j {
      if j >= 0 {
        OnlyOnePrecedes(polls, i, j, n);
      }
    }
  }

  lemma RecordedLater(polls: seq<Poll>, more: seq<Poll>, k: nat, e: Change)
    requires k < |polls| && polls <= more && RecordedAt(polls, k, e)
    ensures RecordedAt(more, k, e)
  {
    var j :| 0 <= j < k && ChangesFrom(polls, j, k) && Some(e.before) == polls[j].reading.channel;
    assert ChangesFrom(more, j, k);
  }

  /** Each event was recorded at a poll that found its radio's channel changed, with the flag that poll's commands call
    * for. */
  lemma {:induction false} EventsAreChanges(polls: seq<Poll>, e: Change)
    requires e in Run(polls).events
    ensures exists k :: 0 <= k < |polls| && RecordedAt(polls, k, e)
    decreases |polls|
  {
    if polls != [] {
      var before := polls[..|polls| - 1];
      var added := PollRecordsExactly(polls);
      if e in Run(before).events {
        EventsAreChanges(before, e);
        var k :| 0 <= k < |before| && RecordedAt(before, k, e);
        RecordedLater(before, polls, k, e);
      } else {
        assert e == added[0];
      }
    }
  }

  /** And each poll that found it changed has its event. */
  lemma {:induction false} ChangesHaveEvents(polls: seq<Poll>, j: nat, k: nat) returns (e: Change)
    requires j < k < |polls| && ChangesFrom(polls, j, k)
    ensures e in Run(polls).events && RecordedAt(polls, k, e)
    decreases |polls|
  {
    var before := polls[..|polls| - 1];
    var added := PollRecordsExactly(polls);
    if k < |before| {
      assert ChangesFrom(before, j, k);
      e := ChangesHaveEvents(before, j, k);
      RecordedLater(before, polls, k, e);
    } else {
      e := added[0];
    }
  }

  /** A change to the channel of a command whose apply was written at most ten minutes before, and that has not been
    * reverted since, is commanded. */
  lemma JustAppliedIsCommanded(polls: seq<Poll>, k: nat, e: Change, c: Command)
    requires k < |polls| && RecordedAt(polls, k, e) && c in polls[k].commands
    requires c.key == e.key && c.channel == e.after && (c.status == Applied || c.status == Acked)
    requires c.appliedAt.Some? && polls[k].reading.time < c.appliedAt.value + 600_000_000
    ensures e.commanded
  {
    var i :| 0 <= i < |polls[k].commands| && polls[k].commands[i] == c;
  }

  /** What one radio of one device read, in order. */
  function Channels(polls: seq<Poll>, k: Key): seq<Option<int>> {
    if polls == [] then []
    else
      var n := |polls| - 1;
      Channels(polls[..n], k) + if polls[n].reading.key == k then [polls[n].reading.channel] else []
  }

  function EventsOf(events: seq<Change>, k: Key): seq<Change> {
    if events == [] then []
    else
      var n := |events| - 1;
      EventsOf(events[..n], k) + if events[n].key == k then [events[n]] else []
  }

  /** From the first channel read, through the events. */
  function Replay(first: Option<int>, events: seq<Change>): Option<int> {
    if events == [] then first else Some(events[|events| - 1].after)
  }

  /** The first channel that is not null. */
  function First(channels: seq<Option<int>>): Option<int> {
    if channels == [] then None
    else if First(channels[..|channels| - 1]).Some? then First(channels[..|channels| - 1])
    else channels[|channels| - 1]
  }

  /** The last channel that is not null. */
  function LastKnown(channels: seq<Option<int>>): Option<int> {
    if channels == [] then None
    else if channels[|channels| - 1].Some? then channels[|channels| - 1]
    else LastKnown(channels[..|channels| - 1])
  }

  function Replayed(polls: seq<Poll>, k: Key): Option<int> {
    Replay(First(Channels(polls, k)), EventsOf(Run(polls).events, k))
  }

  lemma {:induction false} LatestIsLast(polls: seq<Poll>, k: Key)
    ensures var c := Channels(polls, k);
      LatestChannel(Run(polls).rows, k) == Previous(c)
    decreases |polls|
  {
    if polls != [] {
      var n := |polls| - 1;
      LatestIsLast(polls[..n], k);
      assert Run(polls).rows[..|Run(polls[..n]).rows|] == Run(polls[..n]).rows;
    }
  }

  lemma EventsAppend(events: seq<Change>, more: seq<Change>, k: Key)
    requires |more| <= 1
    ensures EventsOf(events + more, k) == EventsOf(events, k) + if more != [] && more[0].key == k then more else []
  {
    if more == [] {
      assert events + more == events;
    } else {
      assert (events + more)[..|events|] == events;
    }
  }

  /** The channel, null or not, of the last reading. */
  function Previous(c: seq<Option<int>>): Option<int> {
    if c == [] then None else c[|c| - 1]
  }

  /** What one poll adds to a key's events, told by the key's channels. */
  lemma EventsStep(polls: seq<Poll>, k: Key)
    requires polls != [] && !k.radio.OtherRadio?
    ensures var n := |polls| - 1; var r := polls[n].reading;
      var before := Previous(Channels(polls[..n], k));
      EventsOf(Run(polls).events, k) == EventsOf(Run(polls[..n]).events, k) +
        if r.key == k && r.channel.Some? && before.Some? && before != r.channel
        then [Change(k, before.value, r.channel.value, IsCommanded(polls[n].commands, k, r.channel.value, r.time))]
        else []
  {
    var n := |polls| - 1;
    var t, p := Run(polls[..n]), polls[n];
    LatestIsLast(polls[..n], p.reading.key);
    EventsAppend(t.events, Changed(t.rows, p.reading, p.commands), k);
  }

  /** The n-th reading of the radio changed the channel behind a null. */
  predicate HiddenChange(channels: seq<Option<int>>, n: nat)
    requires n < |channels|
  {
    && channels[n].Some? && n > 0 && channels[n - 1].None?
    && LastKnown(channels[..n]).Some? && LastKnown(channels[..n]) != channels[n]
  }

  predicate NothingHidden(channels: seq<Option<int>>) {
    forall n :: 0 <= n < |channels| ==> !HiddenChange(channels, n)
  }

  lemma NothingHiddenSnoc(c: seq<Option<int>>, x: Option<int>)
    ensures NothingHidden(c + [x]) <==> NothingHidden(c) && !HiddenChange(c + [x], |c|)
  {
    var after := c + [x];
    forall i | 0 <= i < |c| ensures HiddenChange(c, i) <==> HiddenChange(after, i) {
      assert after[..i] == c[..i];
    }
  }

  lemma LastKnownSnoc(c: seq<Option<int>>, x: Option<int>)
    ensures LastKnown(c + [x]) == (if x.Some? then x else LastKnown(c))
    ensures First(c + [x]) == (if First(c).Some? then First(c) else x)
  {
    assert (c + [x])[..|c|] == c;
  }

  lemma {:induction false} FirstAndLastKnown(c: seq<Option<int>>)
    ensures First(c).None? <==> LastKnown(c).None?
    decreases |c|
  {
    if c != [] {
      FirstAndLastKnown(c[..|c| - 1]);
    }
  }

  /** One reading of the radio, told on channels and events alone: what replay gives afterwards. */
  lemma ReplayStep(c: seq<Option<int>>, x: Option<int>, events: seq<Change>, after: seq<Change>)
    requires Replay(First(c), events) == LastKnown(c)
    requires if x.Some? && Previous(c).Some? && Previous(c) != x
             then after != [] && Some(after[|after| - 1].after) == x
             else after == events
    ensures x.None? ==> Replay(First(c + [x]), after) == LastKnown(c + [x])
    ensures x.Some? ==> (Replay(First(c + [x]), after) == x <==> !HiddenChange(c + [x], |c|))
  {
    LastKnownSnoc(c, x);
    FirstAndLastKnown(c);
    assert (c + [x])[..|c|] == c;
    if Previous(c).Some? {
      assert LastKnown(c) == Previous(c);
    }
  }

  lemma ChannelsStep(polls: seq<Poll>, k: Key)
    requires polls != []
    ensures var n := |polls| - 1; var r := polls[n].reading;
      Channels(polls, k) == if r.key == k then Channels(polls[..n], k) + [r.channel] else Channels(polls[..n], k)
  {
  }

  /** A poll of the radio, when replay has been right so far. */
  lemma RadioPolled(polls: seq<Poll>, k: Key)
    requires !k.radio.OtherRadio? && polls != [] && polls[|polls| - 1].reading.key == k
    requires Replayed(polls[..|polls| - 1], k) == LastKnown(Channels(polls[..|polls| - 1], k))
    ensures var x := polls[|polls| - 1].reading.channel; var c := Channels(polls[..|polls| - 1], k);
      && (x.None? ==> Replayed(polls, k) == LastKnown(Channels(polls, k)))
      && (x.Some? ==> (Replayed(polls, k) == x <==> !HiddenChange(c + [x], |c|)))
  {
    var n := |polls| - 1;
    EventsStep(polls, k);
    ChannelsStep(polls, k);
    ReplayStep(Channels(polls[..n], k), polls[n].reading.channel,
               EventsOf(Run(polls[..n]).events, k), EventsOf(Run(polls).events, k));
  }

  /** With nothing hidden, replaying the events from the first channel gives the last known channel. */
  lemma {:induction false} ReplayGivesLastKnown(polls: seq<Poll>, k: Key)
    requires !k.radio.OtherRadio? && NothingHidden(Channels(polls, k))
    ensures Replayed(polls, k) == LastKnown(Channels(polls, k))
    decreases |polls|
  {
    if polls != [] {
      var n := |polls| - 1;
      var c, r := Channels(polls[..n], k), polls[n].reading;
      ChannelsStep(polls, k);
      if r.key == k {
        NothingHiddenSnoc(c, r.channel);
        ReplayGivesLastKnown(polls[..n], k);
        RadioPolled(polls, k);
        LastKnownSnoc(c, r.channel);
      } else {
        ReplayGivesLastKnown(polls[..n], k);
        EventsStep(polls, k);
      }
    }
  }

  /** Replay was right at the n-th poll. */
  ghost predicate RightAt(polls: seq<Poll>, k: Key, n: nat)
    requires 0 < n <= |polls|
  {
    polls[n - 1].reading.key == k && polls[n - 1].reading.channel.Some? ==>
      Replayed(polls[..n], k) == polls[n - 1].reading.channel
  }

  /** At every poll so far that read the radio's channel, replay gave that channel. */
  ghost predicate Tracks(polls: seq<Poll>, k: Key) {
    forall n :: 0 < n <= |polls| ==> RightAt(polls, k, n)
  }

  lemma TracksSnoc(polls: seq<Poll>, k: Key)
    requires polls != []
    ensures Tracks(polls, k) <==> Tracks(polls[..|polls| - 1], k) && RightAt(polls, k, |polls|)
  {
    var n := |polls| - 1;
    forall i | 0 < i <= n ensures RightAt(polls[..n], k, i) <==> RightAt(polls, k, i) {
      assert polls[..n][..i] == polls[..i];
    }
  }

  /** Replay gives the channel at every poll exactly when no reading changed it behind a null; in
    * particular whenever no channel is null. */
  lemma {:induction false} ReplayTracksExactlyWhen(polls: seq<Poll>, k: Key)
    requires !k.radio.OtherRadio?
    ensures Tracks(polls, k) <==> NothingHidden(Channels(polls, k))
    decreases |polls|
  {
    if polls != [] {
      var n := |polls| - 1;
      var c, r := Channels(polls[..n], k), polls[n].reading;
      ReplayTracksExactlyWhen(polls[..n], k);
      TracksSnoc(polls, k);
      assert polls[..|polls|] == polls;
      ChannelsStep(polls, k);
      if r.key == k {
        NothingHiddenSnoc(c, r.channel);
        if NothingHidden(c) {
          ReplayGivesLastKnown(polls[..n], k);
          RadioPolled(polls, k);
        }
      }
    }
  }

  lemma NoNullsNothingHidden(polls: seq<Poll>, k: Key)
    requires !k.radio.OtherRadio? && forall n :: 0 <= n < |Channels(polls, k)| ==> Channels(polls, k)[n].Some?
    ensures Tracks(polls, k)
  {
    ReplayTracksExactlyWhen(polls, k);
  }

  /** Each event starts where the one before it ended unless a null hid a change, and changes
    * something. */
  predicate Chained(events: seq<Change>) {
    && (forall i :: 0 <= i < |events| ==> events[i].before != events[i].after)
    && (forall i, j :: 0 <= i && j == i + 1 < |events| ==> events[j].before == events[i].after)
  }

  lemma ChainedSnoc(events: seq<Change>, e: Change)
    requires Chained(events) && e.before != e.after && (events != [] ==> e.before == events[|events| - 1].after)
    ensures Chained(events + [e])
  {
  }

  lemma ChainedStep(polls: seq<Poll>, k: Key)
    requires !k.radio.OtherRadio? && polls != []
    requires Chained(EventsOf(Run(polls[..|polls| - 1]).events, k))
    requires Replayed(polls[..|polls| - 1], k) == LastKnown(Channels(polls[..|polls| - 1], k))
    ensures Chained(EventsOf(Run(polls).events, k))
  {
    var n := |polls| - 1;
    var c, r, events := Channels(polls[..n], k), polls[n].reading, EventsOf(Run(polls[..n]).events, k);
    EventsStep(polls, k);
    if r.key == k && r.channel.Some? && Previous(c).Some? && Previous(c) != r.channel {
      assert LastKnown(c) == Previous(c);
      ChainedSnoc(events, Change(k, Previous(c).value, r.channel.value,
                                 IsCommanded(polls[n].commands, k, r.channel.value, r.time)));
    } else {
      assert EventsOf(Run(polls).events, k) == events;
    }
  }

  lemma {:induction false} EventsAreChained(polls: seq<Poll>, k: Key)
    requires !k.radio.OtherRadio? && NothingHidden(Channels(polls, k))
    ensures Chained(EventsOf(Run(polls).events, k))
    decreases |polls|
  {
    if polls != [] {
      var n := |polls| - 1;
      ChannelsStep(polls, k);
      if polls[n].reading.key == k {
        NothingHiddenSnoc(Channels(polls[..n], k), polls[n].reading.channel);
      }
      EventsAreChained(polls[..n], k);
      ReplayGivesLastKnown(polls[..n], k);
      ChainedStep(polls, k);
    }
  }

  const AP_HALOW: Key := Key(1, Halow)

  /** A change behind a null is lost: the radio goes from 16 to 24 across a poll that read no channel, no
    * event says so, and replay still gives 16. */
  lemma ChangeBehindNullIsLost()
    ensures var polls := [Poll(Reading(AP_HALOW, 0, Some(16)), []), Poll(Reading(AP_HALOW, 30, None), []),
                          Poll(Reading(AP_HALOW, 60, Some(24)), [])];
      Run(polls).events == [] && Replayed(polls, AP_HALOW) == Some(16)
  {
    var p0, p1, p2 := Poll(Reading(AP_HALOW, 0, Some(16)), []), Poll(Reading(AP_HALOW, 30, None), []),
      Poll(Reading(AP_HALOW, 60, Some(24)), []);
    var polls := [p0, p1, p2];
    assert polls[..2] == [p0, p1] && [p0, p1][..1] == [p0] && [p0][..0] == [];
    assert Run([p0]).rows == [p0.reading] && Run([p0]).events == [];
    assert Run([p0, p1]).rows == [p0.reading, p1.reading] && Run([p0, p1]).events == [];
    assert Channels([p0], AP_HALOW) == [Some(16)];
    assert Channels([p0, p1], AP_HALOW) == [Some(16), None];
    assert Channels(polls, AP_HALOW) == [Some(16), None, Some(24)];
    LastKnownSnoc([], Some(16));
    LastKnownSnoc([Some(16)], None);
    LastKnownSnoc([Some(16), None], Some(24));
    assert [] + [Some(16)] == [Some(16)];
    assert [Some(16)] + [None] == [Some(16), None];
    assert [Some(16), None] + [Some(24)] == [Some(16), None, Some(24)];
  }
}
