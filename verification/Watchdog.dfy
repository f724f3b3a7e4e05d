/** The server's radio watchdog (app/main.py, _maybe_auto_recover_radio, _reset_auto_recovery and the tail of
  * poll_telemetry) over timed runs of readings. Times are microseconds on the server's clock. */
module Watchdog {
  import opened Wrappers
  import Spacing

  const COOLDOWN: nat := 15 * 60 * 1_000_000
  const MAX_REBOOTS: nat := 3
  const MIN_DOWN_POLLS: nat := 3

  /** The watchdog's columns of a devices row. */
  datatype Row = Row(downPolls: nat, lastReboot: Option<int>, attempts: nat, exhausted: bool)

  const FRESH: Row := Row(0, None, 0, false)

  /** The events it records and notifies about. */
  datatype Happening =
    | Reboot(attempt: nat, t: int)
    | Exhausted(t: int)
    | Recovered(attempts: nat, t: int)

  datatype Reading = Up | Down | Unknown

  /** A reading; the clock as the cooldown is checked; and as an attempt is stored, after the SSH call. */
  datatype Poll = Poll(reading: Reading, at: int, recorded: int)

  predicate Cooling(r: Row, at: int) {
    r.lastReboot.Some? && at - r.lastReboot.value < COOLDOWN
  }

  function AfterDown(r: Row, at: int, recorded: int): (Row, seq<Happening>) {
    var s := r.(downPolls := r.downPolls + 1);
    if s.downPolls < MIN_DOWN_POLLS || Cooling(s, at) then (s, [])
    else if s.attempts >= MAX_REBOOTS then
      if s.exhausted then (s, []) else (s.(exhausted := true), [Exhausted(at)])
    else (s.(lastReboot := Some(recorded), attempts := s.attempts + 1), [Reboot(s.attempts + 1, recorded)])
  }

  function AfterUp(r: Row, at: int): (Row, seq<Happening>) {
    var s := r.(downPolls := 0);
    if s.attempts == 0 && !s.exhausted then (s, [])
    else (s.(attempts := 0, exhausted := false), [Recovered(s.attempts, at)])
  }

  function AfterPoll(r: Row, p: Poll): (Row, seq<Happening>) {
    match p.reading
    case Down => AfterDown(r, p.at, p.recorded)
    case Up => AfterUp(r, p.at)
    case Unknown => (r, [])
  }

  /** A device's row, if it has one, and what the watchdog has reported about it. */
  class WatchedDevice {
    var row: Option<Row>
    var log: seq<Happening>

    constructor ()
      ensures row == None && log == []
    {
      row, log := None, [];
    }

    /** Called on a reading of radio_up == False. The reboot call swallows every failure, so the attempt
      * is always counted. */
    method MaybeAutoRecoverRadio(at: int, recorded: int)
      modifies this
      ensures old(row).None? ==> row == old(row) && log == old(log)
      ensures old(row).Some? ==>
        row == Some(AfterDown(old(row).value, at, recorded).0) &&
        log == old(log) + AfterDown(old(row).value, at, recorded).1
    {
      if row.None? {
        return;
      }
      var device := row.value;
      var downPolls := device.downPolls + 1;
      row := Some(row.value.(downPolls := downPolls));
      if downPolls < MIN_DOWN_POLLS {
        return;
      }
      if device.lastReboot.Some? {
        var elapsed := at - device.lastReboot.value;
        if elapsed < COOLDOWN {
          return;
        }
      }
      if device.attempts >= MAX_REBOOTS {
        if !device.exhausted {
          row := Some(row.value.(exhausted := true));
          log := log + [Exhausted(at)];
        }
        return;
      }
      var attempt := device.attempts + 1;
      row := Some(row.value.(lastReboot := Some(recorded), attempts := attempt));
      log := log + [Reboot(attempt, recorded)];
    }

    /** Called on a reading of radio_up == True. */
    method ResetAutoRecovery(at: int)
      modifies this
      ensures old(row).None? ==> row == old(row) && log == old(log)
      ensures old(row).Some? ==>
        row == Some(AfterUp(old(row).value, at).0) && log == old(log) + AfterUp(old(row).value, at).1
    {
      if row.None? {
        return;
      }
      var device := row.value;
      if device.downPolls != 0 {
        row := Some(row.value.(downPolls := 0));
      }
      if device.attempts == 0 && !device.exhausted {
        return;
      }
      row := Some(row.value.(attempts := 0, exhausted := false));
      log := log + [Recovered(device.attempts, at)];
    }

    /** What one poll of the device leads to. */
    method Handle(p: Poll)
      modifies this
      ensures old(row).None? ==> row == old(row) && log == old(log)
      ensures old(row).Some? ==>
        row == Some(AfterPoll(old(row).value, p).0) && log == old(log) + AfterPoll(old(row).value, p).1
    {
      if p.reading == Down {
        MaybeAutoRecoverRadio(p.at, p.recorded);
      } else if p.reading == Up {
        ResetAutoRecovery(p.at);
      }
    }
  }

  // ---------- Runs ----------

  datatype History = History(row: Row, log: seq<Happening>)

  /** A device's row from its creation on, and everything reported. */
  function Run(polls: seq<Poll>): History {
    if polls == [] then History(FRESH, [])
    else
      var n := |polls| - 1;
      var before := Run(polls[..n]);
      var (row, happened) := AfterPoll(before.row, polls[n]);
      History(row, before.log + happened)
  }

  /** One poll after the other on a clock that does not run backwards. */
  predicate InOrder(polls: seq<Poll>) {
    && (forall k :: 0 <= k < |polls| ==> polls[k].at <= polls[k].recorded)
    && (forall j, k :: 0 <= j < k < |polls| ==> polls[j].recorded <= polls[k].at)
  }

  /** What the last poll of the run led to. */
  function Happened(polls: seq<Poll>): seq<Happening>
    requires polls != []
  {
    AfterPoll(Run(polls[..|polls| - 1]).row, polls[|polls| - 1]).1
  }

  // ---------- The streak ----------

  /** The down readings that no up reading follows. */
  function DownsSinceUp(polls: seq<Poll>): set<nat> {
    set k: nat | k < |polls| && polls[k].reading == Down && forall j :: k < j < |polls| ==> polls[j].reading != Up
  }

  lemma DownsStep(polls: seq<Poll>)
    requires polls != []
    ensures var n := |polls| - 1; var before := DownsSinceUp(polls[..n]);
      DownsSinceUp(polls) == (match polls[n].reading case Up => {} case Down => before + {n} case Unknown => before)
    ensures |polls| - 1 !in DownsSinceUp(polls[..|polls| - 1])
  {
    var n := |polls| - 1;
    var before := polls[..n];
    forall k: nat | k < n
      ensures k in DownsSinceUp(polls) <==> k in DownsSinceUp(before) && polls[n].reading != Up
    {
      if k in DownsSinceUp(polls) {
        assert forall j :: k < j < n ==> before[j] == polls[j];
      }
    }
  }

  /** The stored streak counts the down readings since the last up reading: unknown readings do not
    * break it, and neither do reboots. */
  lemma {:induction false} StreakCounts(polls: seq<Poll>)
    ensures Run(polls).row.downPolls == |DownsSinceUp(polls)|
    decreases |polls|
  {
    if polls != [] {
      var n := |polls| - 1;
      StreakCounts(polls[..n]);
      DownsStep(polls);
      StreakStep(Run(polls[..n]).row, polls[n]);
    }
  }

  lemma StreakStep(r: Row, p: Poll)
    ensures AfterPoll(r, p).0.downPolls ==
      (match p.reading case Up => 0 case Down => r.downPolls + 1 case Unknown => r.downPolls)
  {
  }

  predicate Reboots(happened: seq<Happening>) {
    exists k :: 0 <= k < |happened| && happened[k].Reboot?
  }

  /** A reboot needs three down readings with no up reading among or after them, the last of them the
    * poll that reboots. */
  lemma RebootNeedsThreeDowns(polls: seq<Poll>) returns (a: nat, b: nat)
    requires polls != [] && Reboots(Happened(polls))
    ensures a < b < |polls| - 1
    ensures polls[a].reading == polls[b].reading == polls[|polls| - 1].reading == Down
    ensures forall k :: a <= k < |polls| ==> polls[k].reading != Up
  {
    var n := |polls| - 1;
    StreakCounts(polls[..n]);
    var downs := DownsSinceUp(polls[..n]);
    a, b := TwoOf(downs);
  }

  lemma TwoOf(s: set<nat>) returns (a: nat, b: nat)
    requires |s| >= 2
    ensures a in s && b in s && a < b
  {
    var x :| x in s;
    var rest := s - {x};
    assert |rest| >= 1;
    var y :| y in rest;
    a, b := if x < y then x else y, if x < y then y else x;
  }

  // ---------- Spacing ----------

  /** Any two reboots are at least the cooldown of fifteen minutes apart. */
  ghost predicate RebootsSpaced(log: seq<Happening>) {
    forall i, j :: 0 <= i < j < |log| && log[i].Reboot? && log[j].Reboot? ==> log[j].t - log[i].t >= 900_000_000
  }

  ghost predicate NoLaterReboot(log: seq<Happening>, last: Option<int>) {
    forall i :: 0 <= i < |log| && log[i].Reboot? ==> last.Some? && log[i].t <= last.value
  }

  lemma InOrderPrefix(polls: seq<Poll>)
    requires InOrder(polls) && polls != []
    ensures InOrder(polls[..|polls| - 1])
  {
  }

  /** Across recoveries too: the time of the last reboot is never forgotten. */
  lemma {:induction false} RunSpacesReboots(polls: seq<Poll>)
    requires InOrder(polls)
    ensures RebootsSpaced(Run(polls).log)
    ensures NoLaterReboot(Run(polls).log, Run(polls).row.lastReboot)
    decreases |polls|
  {
    if polls != [] {
      InOrderPrefix(polls);
      RunSpacesReboots(polls[..|polls| - 1]);
    }
  }

  /** A window of `span` microseconds holds at most floor(span / cooldown) + 1 reboots, `picked` being
    * the log entries of any reboots in it. */
  lemma RebootsInWindow(polls: seq<Poll>, picked: seq<nat>, from: int, span: nat)
    requires InOrder(polls)
    requires forall k :: 0 <= k < |picked| ==> picked[k] < |Run(polls).log| && Run(polls).log[picked[k]].Reboot?
    requires forall k :: 0 <= k < |picked| ==> from <= Run(polls).log[picked[k]].t <= from + span
    requires forall j, k :: 0 <= j < k < |picked| ==> picked[j] < picked[k]
    ensures |picked| <= span / 900_000_000 + 1
  {
    RunSpacesReboots(polls);
    if picked != [] {
      PickedSpan(Run(polls).log, picked);
      Spacing.CountFromSpan(|picked|, 900_000_000, span);
    }
  }

  lemma {:induction false} PickedSpan(log: seq<Happening>, picked: seq<nat>)
    requires RebootsSpaced(log) && picked != []
    requires forall k :: 0 <= k < |picked| ==> picked[k] < |log| && log[picked[k]].Reboot?
    requires forall j, k :: 0 <= j < k < |picked| ==> picked[j] < picked[k]
    ensures (|picked| - 1) * 900_000_000 <= log[picked[|picked| - 1]].t - log[picked[0]].t
  {
    var n := |picked| - 1;
    if n > 0 {
      PickedSpan(log, picked[..n]);
      assert picked[n - 1] < picked[n];
    }
  }

  // ---------- The shape of the log ----------

  /** Where in an outage the log stands: attempts reported so far, and whether the alert is out. */
  datatype Outage = Outage(attempts: nat, alerted: bool) | Broken

  /** Reboots count up from one to at most three; the alert follows the third reboot only; a recovery
    * names the attempts there were, at least one, and ends the outage. */
  function Next(o: Outage, h: Happening): Outage {
    if o.Broken? then Broken
    else
      match h
      case Reboot(k, _) =>
        if !o.alerted && k == o.attempts + 1 && k <= MAX_REBOOTS then Outage(k, false) else Broken
      case Exhausted(_) => if !o.alerted && o.attempts == MAX_REBOOTS then Outage(o.attempts, true) else Broken
      case Recovered(k, _) => if k == o.attempts && k > 0 then Outage(0, false) else Broken
  }

  function Shape(log: seq<Happening>): Outage {
    if log == [] then Outage(0, false) else Next(Shape(log[..|log| - 1]), log[|log| - 1])
  }

  lemma ShapeAppend(log: seq<Happening>, h: Happening)
    ensures Shape(log + [h]) == Next(Shape(log), h)
  {
    assert (log + [h])[..|log|] == log;
  }

  ghost predicate Counts(h: History) {
    && Shape(h.log) == Outage(h.row.attempts, h.row.exhausted)
    && h.row.attempts <= MAX_REBOOTS && (h.row.exhausted ==> h.row.attempts == MAX_REBOOTS)
  }

  lemma PollKeepsShape(h: History, p: Poll)
    requires Counts(h)
    ensures Counts(History(AfterPoll(h.row, p).0, h.log + AfterPoll(h.row, p).1))
  {
    var happened := AfterPoll(h.row, p).1;
    if happened == [] {
      assert h.log + happened == h.log;
    } else {
      ShapeAppend(h.log, happened[0]);
      assert happened == [happened[0]];
    }
  }

  /** Every log has that shape, and the row's counters are what the log says; so at most three
    * reboots, and only after a third the flag. */
  lemma {:induction false} LogHasShape(polls: seq<Poll>)
    ensures var h := Run(polls); Shape(h.log) == Outage(h.row.attempts, h.row.exhausted)
    ensures Run(polls).row.attempts <= MAX_REBOOTS
    ensures Run(polls).row.exhausted ==> Run(polls).row.attempts == MAX_REBOOTS
    decreases |polls|
  {
    if polls != [] {
      var n := |polls| - 1;
      LogHasShape(polls[..n]);
      PollKeepsShape(Run(polls[..n]), polls[n]);
    } else {
      assert Shape([]) == Outage(0, false);
    }
  }

  lemma {:induction false} ShapeOfPrefix(log: seq<Happening>, k: nat)
    requires k <= |log| && Shape(log) != Broken
    ensures Shape(log[..k]) != Broken
    decreases |log| - k
  {
    if k < |log| {
      ShapeOfPrefix(log, k + 1);
      assert log[..k + 1][..k] == log[..k];
    } else {
      assert log[..k] == log;
    }
  }

  lemma ShapeStep(log: seq<Happening>, k: nat)
    requires k < |log| && Shape(log) != Broken
    ensures Shape(log[..k]) != Broken && Shape(log[..k + 1]) == Next(Shape(log[..k]), log[k])
    ensures Shape(log[..k + 1]) != Broken
  {
    ShapeOfPrefix(log, k);
    ShapeOfPrefix(log, k + 1);
    assert log[..k + 1][..k] == log[..k];
  }

  /** An exhausted alert directly follows the three reboots of its outage, and whatever is reported
    * next is the recovery, naming three attempts. So between two alerts there is exactly one report of
    * the first one's recovery. */
  lemma AlertInContext(polls: seq<Poll>, a: nat)
    requires a < |Run(polls).log| && Run(polls).log[a].Exhausted?
    ensures var log := Run(polls).log;
      && a >= 3 && log[a - 3].Reboot? && log[a - 2].Reboot? && log[a - 1].Reboot?
      && log[a - 3].attempt == 1 && log[a - 2].attempt == 2 && log[a - 1].attempt == 3
      && (a + 1 < |log| ==> log[a + 1].Recovered? && log[a + 1].attempts == 3)
  {
    LogHasShape(polls);
    AlertInShape(Run(polls).log, a);
  }

  lemma AlertInShape(log: seq<Happening>, a: nat)
    requires Shape(log) != Broken && a < |log| && log[a].Exhausted?
    ensures a >= 3 && log[a - 3].Reboot? && log[a - 2].Reboot? && log[a - 1].Reboot?
    ensures log[a - 3].attempt == 1 && log[a - 2].attempt == 2 && log[a - 1].attempt == 3
    ensures a + 1 < |log| ==> log[a + 1].Recovered? && log[a + 1].attempts == 3
  {
    ShapeStep(log, a);
    LastReboots(log, a);
    if a + 1 < |log| {
      ShapeStep(log, a + 1);
    }
  }

  /** With k attempts so far, the last k entries are the reboots 1 to k, before an alert. */
  lemma {:induction false} LastReboots(log: seq<Happening>, n: nat)
    requires n <= |log| && Shape(log) != Broken && Shape(log[..n]) != Broken && !Shape(log[..n]).alerted
    ensures var k := Shape(log[..n]).attempts;
      k <= n && forall i :: n - k <= i < n ==> log[i].Reboot? && log[i].attempt == i - (n - k) + 1
  {
    if Shape(log[..n]).attempts > 0 {
      ShapeStep(log, n - 1);
      LastReboots(log, n - 1);
    }
  }

  /** Two alerts are never about one outage: at least a recovery and three reboots lie between. */
  lemma AlertsAreApart(polls: seq<Poll>, a: nat, b: nat)
    requires a < b < |Run(polls).log| && Run(polls).log[a].Exhausted? && Run(polls).log[b].Exhausted?
    ensures b >= a + 5 && Run(polls).log[a + 1].Recovered? && Run(polls).log[a + 1].attempts == 3
  {
    AlertInContext(polls, a);
    AlertInContext(polls, b);
  }

  /** Each alert comes at least the cooldown after the third reboot was stored. */
  lemma {:induction false} AlertWaits(polls: seq<Poll>, a: nat)
    requires InOrder(polls) && a < |Run(polls).log| && Run(polls).log[a].Exhausted?
    ensures a > 0 && Run(polls).log[a].t - Run(polls).log[a - 1].t >= 900_000_000
    decreases |polls|
  {
    AlertInContext(polls, a);
    var n := |polls| - 1;
    InOrderPrefix(polls);
    var before := Run(polls[..n]);
    if a < |before.log| {
      AlertWaits(polls[..n], a);
    } else {
      RunSpacesReboots(polls[..n]);
      var third := Run(polls).log[a - 1];
      assert a == |before.log| && third == before.log[a - 1];
    }
  }

  // ---------- Reboots between up readings ----------

  function RebootCount(log: seq<Happening>): nat {
    if log == [] then 0 else RebootCount(log[..|log| - 1]) + if log[|log| - 1].Reboot? then 1 else 0
  }

  lemma PollCounts(r: Row, p: Poll, log: seq<Happening>)
    requires p.reading != Up
    ensures RebootCount(log + AfterPoll(r, p).1) - RebootCount(log) == AfterPoll(r, p).0.attempts - r.attempts
  {
    var happened := AfterPoll(r, p).1;
    if happened == [] {
      assert log + happened == log;
    } else {
      assert (log + happened)[..|log|] == log;
    }
  }

  /** With no up reading from the i-th poll on, the reboots of those polls are the attempts they added. */
  lemma {:induction false} AttemptsAdded(polls: seq<Poll>, i: nat)
    requires i <= |polls| && forall k :: i <= k < |polls| ==> polls[k].reading != Up
    ensures RebootCount(Run(polls).log) - RebootCount(Run(polls[..i]).log) ==
      Run(polls).row.attempts - Run(polls[..i]).row.attempts
    decreases |polls|
  {
    if i == |polls| {
      assert polls[..i] == polls;
    } else {
      var n := |polls| - 1;
      AttemptsAdded(polls[..n], i);
      assert polls[..n][..i] == polls[..i];
      PollCounts(Run(polls[..n]).row, polls[n], Run(polls[..n]).log);
      LastPoll(polls, Run(polls[..n]));
    }
  }

  lemma LastPoll(polls: seq<Poll>, before: History)
    requires polls != [] && before == Run(polls[..|polls| - 1])
    ensures Run(polls) == History(AfterPoll(before.row, polls[|polls| - 1]).0,
                                  before.log + AfterPoll(before.row, polls[|polls| - 1]).1)
  {
  }

  /** At most three reboots fall between two up readings. */
  lemma AtMostThreePerOutage(polls: seq<Poll>, i: nat)
    requires i <= |polls| && forall k :: i <= k < |polls| ==> polls[k].reading != Up
    ensures RebootCount(Run(polls).log) - RebootCount(Run(polls[..i]).log) <= 3
  {
    AttemptsAdded(polls, i);
    LogHasShape(polls);
  }

  // ---------- Never silent ----------

  predicate RecentReboot(log: seq<Happening>, at: int) {
    exists k :: 0 <= k < |log| && log[k].Reboot? && at - log[k].t < 900_000_000
  }

  predicate AlertOut(log: seq<Happening>) {
    log != [] && log[|log| - 1].Exhausted?
  }

  lemma {:induction false} LastRebootIsLogged(polls: seq<Poll>)
    ensures Run(polls).row.lastReboot.Some? ==>
      exists k :: 0 <= k < |Run(polls).log| && Run(polls).log[k].Reboot? &&
                  Run(polls).log[k].t == Run(polls).row.lastReboot.value
    decreases |polls|
  {
    if polls != [] && Run(polls).row.lastReboot.Some? {
      var n := |polls| - 1;
      LastRebootIsLogged(polls[..n]);
      var before, after := Run(polls[..n]), Run(polls);
      if after.row.lastReboot == before.row.lastReboot {
        var k :| 0 <= k < |before.log| && before.log[k].Reboot? && before.log[k].t == before.row.lastReboot.value;
        assert after.log[k] == before.log[k];
      } else {
        assert after.log[|before.log|].Reboot?;
      }
    }
  }

  /** Told by the readings and the reports alone: a down reading leads to no report exactly when it is
    * not yet the third since the last up reading, or a reboot was less than the cooldown ago, or the
    * last report is the exhausted alert. */
  lemma SilentExactlyWhen(polls: seq<Poll>)
    requires InOrder(polls) && polls != [] && polls[|polls| - 1].reading == Down
    ensures var before := Run(polls[..|polls| - 1]).log;
      Happened(polls) == [] <==>
      |DownsSinceUp(polls)| < 3 || RecentReboot(before, polls[|polls| - 1].at) || AlertOut(before)
  {
    var n := |polls| - 1;
    var before := Run(polls[..n]);
    StreakCounts(polls);
    InOrderPrefix(polls);
    RunSpacesReboots(polls[..n]);
    LastRebootIsLogged(polls[..n]);
    LogHasShape(polls[..n]);
    AlertOutIsFlag(polls[..n]);
    if Cooling(before.row, polls[n].at) {
      var k :| 0 <= k < |before.log| && before.log[k].Reboot? && before.log[k].t == before.row.lastReboot.value;
      assert RecentReboot(before.log, polls[n].at);
    }
  }

  lemma AlertOutIsFlag(polls: seq<Poll>)
    ensures AlertOut(Run(polls).log) <==> Run(polls).row.exhausted
  {
    LogHasShape(polls);
    AlertOutInShape(Run(polls).log);
  }

  lemma AlertOutInShape(log: seq<Happening>)
    requires Shape(log) != Broken
    ensures AlertOut(log) <==> Shape(log).alerted
  {
    if log != [] {
      ShapeStep(log, |log| - 1);
      assert log[..|log|] == log;
    }
  }

  // ---------- All that is ever reported ----------

  /** The reboots reported since the last recovery was. */
  function RebootsReported(log: seq<Happening>): nat {
    if log == [] || log[|log| - 1].Recovered? then 0
    else RebootsReported(log[..|log| - 1]) + if log[|log| - 1].Reboot? then 1 else 0
  }

  lemma {:induction false} ShapeCountsReboots(log: seq<Happening>)
    requires Shape(log) != Broken
    ensures RebootsReported(log) == Shape(log).attempts
    decreases |log|
  {
    if log != [] {
      ShapeCountsReboots(log[..|log| - 1]);
    }
  }

  /** What a poll reports, told by the readings and the earlier reports alone: a down reading that is not silent, the
    * next reboot or, after the third, the exhausted alert; an up reading, the recovery from the reboots there were;
    * nothing else. After an up reading the next outage counts from the beginning. */
  lemma ReportsExactly(polls: seq<Poll>)
    requires InOrder(polls) && polls != []
    ensures var p, before := polls[|polls| - 1], Run(polls[..|polls| - 1]).log;
      var reboots := RebootsReported(before);
      Happened(polls) == match p.reading
        case Unknown => []
        case Up => if reboots == 0 then [] else [Recovered(reboots, p.at)]
        case Down =>
          if |DownsSinceUp(polls)| < 3 || RecentReboot(before, p.at) || AlertOut(before) then []
          else if reboots < 3 then [Reboot(reboots + 1, p.recorded)] else [Exhausted(p.at)]
    ensures polls[|polls| - 1].reading == Up ==>
      RebootsReported(Run(polls).log) == 0 && Run(polls).row.downPolls == 0 && !AlertOut(Run(polls).log)
  {
    var before := polls[..|polls| - 1];
    LogHasShape(before);
    ShapeCountsReboots(Run(before).log);
    LogHasShape(polls);
    ShapeCountsReboots(Run(polls).log);
    AlertOutIsFlag(polls);
    if polls[|polls| - 1].reading == Down {
      SilentExactlyWhen(polls);
    }
  }
}
