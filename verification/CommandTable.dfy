/** The `commands` table and the queries the jobs run against it
  * (db/migrations/001_init.sql, app/optimizer.py, app/main.py). */
module CommandTable {
  import opened Wrappers
  import Plan = HalowChannelPlan

  /** Timestamps are in microseconds, the resolution of the database's timestamps. */
  const SECOND: int := 1_000_000

  /** One device row per role. */
  datatype Device = AP | STA
  datatype Param = HalowOperatingFreq | Wifi24Channel | Reboot
  datatype Status = Pending | Applied | Acked | Reverted | Unknown

  datatype Command = Command(device: Device, param: Param, channel: int, createdAt: int, ttlSeconds: int,
                             status: Status, appliedAt: int)
  {
    predicate InFlight() {
      status == Pending || status == Applied
    }

    predicate For(d: Device, p: Param) {
      device == d && param == p
    }
  }

  /** Rows in insertion order; a row's id is its position. */
  type Table = seq<Command>

  /** The optimizer moves the HaLow channel of the AP and the 2.4GHz channel of the STA. */
  function ParamOf(d: Device): Param {
    match d case AP => HalowOperatingFreq case STA => Wifi24Channel
  }

  function ChannelsOf(d: Device): seq<int> {
    match d case AP => Plan.ALL_CHANNELS case STA => Plan.WIFI24_CHANNELS
  }

  function DefaultTtlSeconds(p: Param): int {
    match p
    case HalowOperatingFreq => 120
    case Wifi24Channel => 90
    case Reboot => 60
  }

  predicate HasPending(t: Table, d: Device, p: Param) {
    exists i :: 0 <= i < |t| && t[i].For(d, p) && t[i].InFlight()
  }

  /** The newest creation time among the rows of a device and parameter. */
  function LastCreated(t: Table, d: Device, p: Param): (r: Option<int>)
    ensures r.None? ==> forall i :: 0 <= i < |t| ==> !t[i].For(d, p)
    ensures r.Some? ==> forall i :: 0 <= i < |t| && t[i].For(d, p) ==> t[i].createdAt <= r.value
    ensures r.Some? ==> exists i :: 0 <= i < |t| && t[i].For(d, p) && t[i].createdAt == r.value
  {
    if t == [] then None
    else
      var n := |t| - 1;
      var before := LastCreated(t[..n], d, p);
      assert forall i :: 0 <= i < n ==> t[..n][i] == t[i];
      if !t[n].For(d, p) then before
      else if before.Some? && before.value > t[n].createdAt then before
      else Some(t[n].createdAt)
  }

  predicate InCooldown(t: Table, d: Device, p: Param, now: int, cooldown: int) {
    var last := LastCreated(t, d, p);
    last.Some? && now - last.value < cooldown
  }

  /** Not being in cooldown means every earlier command of the key is at least a cooldown old. */
  lemma CooldownCoversEveryCommand(t: Table, d: Device, p: Param, now: int, cooldown: int)
    ensures InCooldown(t, d, p, now, cooldown) <==>
            exists i :: 0 <= i < |t| && t[i].For(d, p) && now - t[i].createdAt < cooldown
  {
  }

  function RevertedChannels(t: Table, d: Device, p: Param): set<int> {
    set i | 0 <= i < |t| && t[i].For(d, p) && t[i].status == Reverted :: t[i].channel
  }

  /** The ids of the rows in a given status, oldest first. */
  function IdsWith(t: Table, status: Status): (ids: seq<nat>)
    ensures forall k :: 0 <= k < |ids| ==> ids[k] < |t| && t[ids[k]].status == status
    ensures forall j, k :: 0 <= j < k < |ids| ==> ids[j] < ids[k]
    ensures forall i {:trigger i in ids} :: 0 <= i < |t| && t[i].status == status ==> i in ids
  {
    if t == [] then []
    else
      var n := |t| - 1;
      var before := IdsWith(t[..n], status);
      assert forall i :: 0 <= i < n ==> t[..n][i] == t[i];
      if t[n].status == status then before + [n] else before
  }

  /** What a check tick makes of an applied row: `elapsed` is measured from its application,
    * `answer` is what verify-confirm said, None when the device could not be asked. */
  function Verdict(c: Command, elapsed: int, delaySeconds: int, answer: Option<bool>): Status {
    if elapsed < delaySeconds * SECOND then c.status
    else
      match answer
      case Some(true) => Acked
      case Some(false) => Reverted
      case None => if elapsed >= (c.ttlSeconds + 15) * SECOND then Unknown else c.status
  }

  /** What has to become of an applied row, told by its age and the answer: confirmed is acked, refused is reverted,
    * and without an answer it is unknown once its time to live and 15 seconds are over. */
  predicate DecidedBy(c: Command, after: Command, elapsed: int, delaySeconds: int, answer: Option<bool>) {
    && after == c.(status := after.status) && after.status != Pending
    && (after.status == Acked <==> elapsed >= delaySeconds * 1_000_000 && answer == Some(true))
    && (after.status == Reverted <==> elapsed >= delaySeconds * 1_000_000 && answer == Some(false))
    && (after.status == Unknown <==>
          elapsed >= delaySeconds * 1_000_000 && elapsed >= (c.ttlSeconds + 15) * 1_000_000 && answer == None)
  }

  /** The moves a row may ever make. */
  predicate MayMove(param: Param, from: Status, to: Status) {
    || from == to
    || (from == Pending && to == Applied && param != Reboot)
    || (from == Pending && to == Acked && param == Reboot)
    || (from == Applied && (to == Acked || to == Reverted || to == Unknown) && param != Reboot)
  }
}
