/** The liveness check and the registration of a polled device as the code they are, run without interruption
  * (app/main.py, check_device_liveness and _get_or_create_device); Liveness interleaves their steps. */
module LivenessJobs {
  import opened Wrappers
  import Liveness

  datatype Role = AP | STA

  datatype DeviceRow = DeviceRow(mac: string, role: Role, lastSeen: Option<int>, offlineAlerted: bool)

  /** A push notification with its event row. */
  datatype Report = Report(id: nat, alert: Liveness.Alert)

  predicate IsStale(d: DeviceRow, now: int, threshold: int) {
    !d.offlineAlerted && (d.lastSeen.None? || d.lastSeen.value < now - threshold)
  }

  /** The ids of the rows to alert about. */
  function StaleIds(rows: seq<DeviceRow>, now: int, threshold: int): (ids: seq<nat>)
    ensures forall k :: 0 <= k < |ids| ==> ids[k] < |rows| && IsStale(rows[ids[k]], now, threshold)
    ensures forall j, k :: 0 <= j < k < |ids| ==> ids[j] < ids[k]
    ensures forall i {:trigger i in ids} :: 0 <= i < |rows| && IsStale(rows[i], now, threshold) ==> i in ids
  {
    if rows == [] then []
    else
      var n := |rows| - 1;
      var before := StaleIds(rows[..n], now, threshold);
      assert forall i :: 0 <= i < n ==> rows[..n][i] == rows[i];
      if IsStale(rows[n], now, threshold) then before + [n] else before
  }

  function Reports(ids: seq<nat>, alert: Liveness.Alert): seq<Report> {
    seq(|ids|, k requires 0 <= k < |ids| => Report(ids[k], alert))
  }

  /** Not alerted about, and not seen since the cutoff. */
  predicate Missed(d: DeviceRow, cutoff: int) {
    !d.offlineAlerted && (d.lastSeen.None? || d.lastSeen.value < cutoff)
  }

  /** One offline report for each missed row, in order of id, and no other. */
  ghost predicate ReportsMissed(reports: seq<Report>, rows: seq<DeviceRow>, cutoff: int) {
    && (forall r: Report ::
          r in reports <==> r.alert == Liveness.Offline && r.id < |rows| && Missed(rows[r.id], cutoff))
    && (forall j, k :: 0 <= j < k < |reports| ==> reports[j].id < reports[k].id)
  }

  lemma StaleAreMissed(rows: seq<DeviceRow>, now: int, threshold: int)
    ensures ReportsMissed(Reports(StaleIds(rows, now, threshold), Liveness.Offline), rows, now - threshold)
  {
    var ids := StaleIds(rows, now, threshold);
    var reports := Reports(ids, Liveness.Offline);
    forall r: Report | r.alert == Liveness.Offline && r.id < |rows| && Missed(rows[r.id], now - threshold)
      ensures r in reports
    {
      assert r.id in ids;
      var k :| 0 <= k < |ids| && ids[k] == r.id;
      assert reports[k] == r;
    }
  }

  /** The id of the row with a MAC; the column is unique. */
  function WithMac(rows: seq<DeviceRow>, mac: string): (id: Option<nat>)
    ensures id.Some? ==> id.value < |rows| && rows[id.value].mac == mac
    ensures id.None? ==> forall i :: 0 <= i < |rows| ==> rows[i].mac != mac
  {
    if rows == [] then None
    else
      var n := |rows| - 1;
      if rows[n].mac == mac then Some(n)
      else
        assert forall i :: 0 <= i < n ==> rows[..n][i] == rows[i];
        WithMac(rows[..n], mac)
  }

  ghost predicate UniqueMacs(rows: seq<DeviceRow>) {
    forall i, j :: 0 <= i < j < |rows| ==> rows[i].mac != rows[j].mac
  }

  class Devices {
    var rows: seq<DeviceRow>
    var reports: seq<Report>

    constructor ()
      ensures rows == [] && reports == []
    {
      rows, reports := [], [];
    }

    /** Exactly the rows that are stale and not yet alerted about are flagged and reported offline, in
      * order; nothing else changes. */
    method CheckDeviceLiveness(now: int, threshold: int)
      modifies this
      ensures |rows| == |old(rows)|
      ensures forall i :: 0 <= i < |rows| ==>
        rows[i] == if Missed(old(rows)[i], now - threshold) then old(rows)[i].(offlineAlerted := true) else old(rows)[i]
      ensures reports == old(reports) + Reports(StaleIds(old(rows), now, threshold), Liveness.Offline)
      ensures ReportsMissed(reports[|old(reports)|..], old(rows), now - threshold)
    {
      var stale := StaleIds(rows, now, threshold);
      for k := 0 to |stale|
        invariant |rows| == |old(rows)|
        invariant forall i :: 0 <= i < |rows| ==>
          rows[i] == if i in stale[..k] then old(rows)[i].(offlineAlerted := true) else old(rows)[i]
        invariant reports == old(reports) + Reports(stale[..k], Liveness.Offline)
      {
        var id := stale[k];
        assert stale[..k + 1] == stale[..k] + [id];
        rows := rows[id := rows[id].(offlineAlerted := true)];
        reports := reports + [Report(id, Liveness.Offline)];
      }
      assert stale[..|stale|] == stale;
      StaleAreMissed(old(rows), now, threshold);
    }

    /** A known device is stamped, and reported back online exactly when it had been alerted about; an
      * unknown one is registered if a role is given and refused (None) otherwise. */
    method GetOrCreateDevice(mac: string, role: Option<Role>, now: int) returns (id: Option<nat>)
      requires UniqueMacs(rows)
      modifies this
      ensures UniqueMacs(rows)
      ensures id.None? <==> WithMac(old(rows), mac).None? && role.None?
      ensures id.None? ==> rows == old(rows) && reports == old(reports)
      ensures id.Some? ==> id.value < |rows| && rows[id.value].mac == mac && rows[id.value].lastSeen == Some(now) &&
                           !rows[id.value].offlineAlerted
      ensures id.Some? && id.value < |old(rows)| ==>
        && rows == old(rows)[id.value := rows[id.value]] && rows[id.value].role == old(rows)[id.value].role
        && reports == old(reports) +
             if old(rows)[id.value].offlineAlerted then [Report(id.value, Liveness.Online)] else []
      ensures id.Some? && id.value >= |old(rows)| ==>
        role.Some? && rows == old(rows) + [DeviceRow(mac, role.value, Some(now), false)] && reports == old(reports)
    {
      id := WithMac(rows, mac);
      if id.Some? {
        var alerted := rows[id.value].offlineAlerted;
        rows := rows[id.value := rows[id.value].(lastSeen := Some(now))];
        if alerted {
          rows := rows[id.value := rows[id.value].(offlineAlerted := false)];
          reports := reports + [Report(id.value, Liveness.Online)];
        }
        return;
      }
      if role.None? {
        return;
      }
      rows := rows + [DeviceRow(mac, role.value, Some(now), false)];
      id := Some(|rows| - 1);
    }
  }

  // ---------- The steps do the same ----------

  function CheckSteps(threshold: nat): seq<Liveness.Action> {
    [Liveness.LivenessSelects(threshold), Liveness.LivenessUpdates, Liveness.LivenessPages, Liveness.LivenessRecords]
  }

  const INGEST_STEPS := [Liveness.IngestSelects, Liveness.IngestTouches, Liveness.IngestClears, Liveness.IngestPages,
                         Liveness.IngestRecords]

  function AsRow(s: Liveness.State, mac: string, role: Role): DeviceRow {
    DeviceRow(mac, role, s.lastSeen, s.flag)
  }

  /** With nothing between its steps, the check flags and reports the device exactly as the loop does. */
  lemma CheckStepsRefineLoop(s: Liveness.State, threshold: nat, mac: string, role: Role)
    requires s.live.Idle?
    ensures var end := Liveness.Run(s, CheckSteps(threshold));
      var stale := IsStale(AsRow(s, mac, role), s.now, threshold);
      && AsRow(end, mac, role) == AsRow(s, mac, role).(offlineAlerted := s.flag || stale)
      && end.pages.log == s.pages.log + (if stale then [Liveness.Offline] else [])
      && end.records.log == s.records.log + (if stale then [Liveness.Offline] else [])
      && end.live.Idle? && end.ingest == s.ingest
  {
    var a := CheckSteps(threshold);
    assert a[..3][..2][..1][..0] == [] && a[..3][..2] == a[..2] && a[..2][..1] == a[..1];
    var s1 := Liveness.Step(s, a[0]);
    assert Liveness.Run(s, a[..1]) == s1;
    assert Liveness.Run(s, a[..2]) == Liveness.Step(s1, a[1]);
    assert Liveness.Run(s, a[..3]) == Liveness.Step(Liveness.Step(s1, a[1]), a[2]);
  }

  lemma IngestStepsUnrolled(s: Liveness.State)
    ensures var a := INGEST_STEPS;
      Liveness.Run(s, a) ==
        Liveness.Step(Liveness.Step(Liveness.Step(Liveness.Step(Liveness.Step(s, a[0]), a[1]), a[2]), a[3]), a[4])
  {
    var a := INGEST_STEPS;
    assert a == [] + [a[0]] + [a[1]] + [a[2]] + [a[3]] + [a[4]];
    Liveness.RunThen(s, [], a[0]);
    Liveness.RunThen(s, [] + [a[0]], a[1]);
    Liveness.RunThen(s, [] + [a[0]] + [a[1]], a[2]);
    Liveness.RunThen(s, [] + [a[0]] + [a[1]] + [a[2]], a[3]);
    Liveness.RunThen(s, [] + [a[0]] + [a[1]] + [a[2]] + [a[3]], a[4]);
  }

  /** And so does an ingest. */
  lemma IngestStepsRefineCall(s: Liveness.State, mac: string, role: Role)
    requires s.ingest.Idle?
    ensures var end := Liveness.Run(s, INGEST_STEPS);
      && AsRow(end, mac, role) == DeviceRow(mac, role, Some(s.now), false)
      && end.pages.log == s.pages.log + (if s.flag then [Liveness.Online] else [])
      && end.records.log == s.records.log + (if s.flag then [Liveness.Online] else [])
      && end.ingest.Idle? && end.live == s.live
  {
    IngestStepsUnrolled(s);
    assert s.pages.log + [] == s.pages.log && s.records.log + [] == s.records.log;
  }
}
