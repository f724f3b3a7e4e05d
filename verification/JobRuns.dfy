/** The step-by-step apply and check jobs of CommandProtocol, run to their end without interruption, do to the
  * table what the loops of CommandJobs do. */
module JobRuns {
  import opened Wrappers
  import opened CommandTable
  import opened CommandProtocol
  import opened CommandInvariants
  import opened CommandJobs
  import SafeApply
  import Plan = HalowChannelPlan

  // ---------- The check job ----------

  /** What the network makes of the next await. */
  function NextCheck(task: CheckTask, net: Network): CheckMove {
    match task
    case CheckRows(rows, snap, _, _) =>
      if rows == [] || rows[0] >= |snap| || snap[rows[0]].device !in net.targets then NoTargetRow
      else
        var answer := net.Answer(rows[0]);
        Verify(true, if answer == Some(true) then Some(snap[rows[0]].channel) else None, true, answer.Some?)
    case _ => WriteVerdict
  }

  function CheckLeft(task: CheckTask): nat {
    match task
    case CheckIdle => 0
    case CheckRows(rows, _, _, _) => 2 * |rows| + 1
    case CheckAnswered(rows, _, _, _, _) => 2 * |rows|
  }

  /** The rows still to come are as selected, the others have their verdict. */
  ghost predicate Progress(commands: Table, rows: seq<nat>, t: Table, at: int, delay: int, net: Network) {
    && |commands| == |t| && Fresh(rows, t, commands, Applied)
    && forall i :: 0 <= i < |t| ==> commands[i] == if i in rows then t[i] else Checked(t[i], i, at, delay, net)
  }

  /** A tick under way. */
  ghost predicate Ticking(s: State, t: Table, at: int, delay: int, net: Network) {
    if s.check.CheckIdle? then Progress(s.commands, [], t, at, delay, net)
    else
      && Progress(s.commands, s.check.rows, t, at, delay, net)
      && s.check.at == at && s.check.delay == delay && s.check.snap == t
      && (s.check.CheckAnswered? ==>
            && s.check.rows != [] && Asked(t[s.check.rows[0]], at, delay, net)
            && s.check.answer == net.Answer(s.check.rows[0]))
  }

  /** The row is one the tick asks its device about. */
  predicate Asked(c: Command, at: int, delay: int, net: Network) {
    c.device in net.targets && at - c.appliedAt >= delay * SECOND
  }

  lemma RestOfRows(rows: seq<nat>)
    requires rows != [] && forall j, k :: 0 <= j < k < |rows| ==> rows[j] < rows[k]
    ensures rows[0] !in rows[1..]
    ensures forall i :: i in rows <==> i == rows[0] || i in rows[1..]
  {
    assert rows == [rows[0]] + rows[1..];
  }

  /** The head row gets its verdict. */
  lemma HeadDone(commands: Table, rows: seq<nat>, t: Table, at: int, delay: int, net: Network)
    requires Progress(commands, rows, t, at, delay, net) && rows != []
    ensures rows[0] < |commands| && commands[rows[0]] == t[rows[0]] && t[rows[0]].status == Applied
    ensures Progress(commands[rows[0] := Checked(t[rows[0]], rows[0], at, delay, net)], rows[1..], t, at, delay, net)
  {
    RestOfRows(rows);
    assert forall k :: 0 <= k < |rows[1..]| ==> rows[1..][k] == rows[k + 1] && rows[k + 1] in rows;
  }

  lemma SkippedHead(s: State, t: Table, at: int, delay: int, net: Network)
    requires Ticking(s, t, at, delay, net) && s.check.CheckRows? && s.check.rows != []
    requires !Asked(t[s.check.rows[0]], at, delay, net)
    ensures Ticking(CheckDrop(s), t, at, delay, net)
    ensures CheckNext(s, NextCheck(s.check, net)) == CheckDrop(s)
  {
    var id := s.check.rows[0];
    HeadDone(s.commands, s.check.rows, t, at, delay, net);
    assert Checked(t[id], id, at, delay, net) == t[id];
    assert s.commands[id := t[id]] == s.commands;
  }

  lemma AskedHead(s: State, t: Table, at: int, delay: int, net: Network)
    requires Ticking(s, t, at, delay, net) && s.check.CheckRows? && s.check.rows != []
    requires Asked(t[s.check.rows[0]], at, delay, net)
    ensures var next := CheckNext(s, NextCheck(s.check, net));
      && next.commands == s.commands
      && next.check == CheckAnswered(s.check.rows, t, at, delay, net.Answer(s.check.rows[0]))
  {
    HeadDone(s.commands, s.check.rows, t, at, delay, net);
  }

  lemma DecidedHead(s: State, t: Table, at: int, delay: int, net: Network)
    requires Ticking(s, t, at, delay, net) && s.check.CheckAnswered?
    ensures var id := s.check.rows[0];
      var next := CheckNext(s, NextCheck(s.check, net));
      && id < |t| && next.commands == s.commands[id := Checked(t[id], id, at, delay, net)]
      && next.check == CheckRows(s.check.rows[1..], t, at, delay)
  {
    var id := s.check.rows[0];
    HeadDone(s.commands, s.check.rows, t, at, delay, net);
    var verdict := Verdict(t[id], at - t[id].appliedAt, delay, s.check.answer);
    assert Checked(t[id], id, at, delay, net) == t[id].(status := verdict);
    if verdict == Applied {
      assert s.commands[id := t[id]] == s.commands;
    }
  }

  lemma CheckStepTicks(s: State, t: Table, at: int, delay: int, net: Network)
    requires Ticking(s, t, at, delay, net) && !s.check.CheckIdle?
    ensures var next := CheckNext(s, NextCheck(s.check, net));
      Ticking(next, t, at, delay, net) && CheckLeft(next.check) < CheckLeft(s.check)
  {
    if s.check.rows != [] {
      HeadDone(s.commands, s.check.rows, t, at, delay, net);
      if s.check.CheckAnswered? {
        DecidedHead(s, t, at, delay, net);
      } else if Asked(t[s.check.rows[0]], at, delay, net) {
        AskedHead(s, t, at, delay, net);
      } else {
        SkippedHead(s, t, at, delay, net);
      }
    }
  }

  /** The check job's steps until it is idle, and nothing else. */
  function DriveCheck(s: State, t: Table, at: int, delay: int, net: Network): State
    requires Ticking(s, t, at, delay, net)
    decreases CheckLeft(s.check)
  {
    if s.check.CheckIdle? then s
    else
      CheckStepTicks(s, t, at, delay, net);
      DriveCheck(CheckNext(s, NextCheck(s.check, net)), t, at, delay, net)
  }

  lemma {:induction false} DriveCheckEnds(s: State, t: Table, at: int, delay: int, net: Network)
    requires Ticking(s, t, at, delay, net)
    ensures var end := DriveCheck(s, t, at, delay, net); end.check.CheckIdle? && Ticking(end, t, at, delay, net)
    decreases CheckLeft(s.check)
  {
    if !s.check.CheckIdle? {
      CheckStepTicks(s, t, at, delay, net);
      DriveCheckEnds(CheckNext(s, NextCheck(s.check, net)), t, at, delay, net);
    }
  }

  lemma CheckBeginsTicking(s: State, delay: int, net: Network)
    requires s.check.CheckIdle?
    ensures Ticking(CheckBegin(s, delay), s.commands, s.now, delay, net)
  {
  }

  /** An uninterrupted check tick gives every row what the loop gives it. */
  lemma CheckTickRefinesLoop(s: State, delay: int, net: Network)
    requires s.check.CheckIdle?
    ensures Ticking(CheckBegin(s, delay), s.commands, s.now, delay, net)
    ensures var end := DriveCheck(CheckBegin(s, delay), s.commands, s.now, delay, net);
      && end.check.CheckIdle? && |end.commands| == |s.commands|
      && forall i :: 0 <= i < |s.commands| ==> end.commands[i] == Checked(s.commands[i], i, s.now, delay, net)
  {
    CheckBeginsTicking(s, delay, net);
    DriveCheckEnds(CheckBegin(s, delay), s.commands, s.now, delay, net);
  }

  // ---------- The apply job ----------

  function NextApply(task: ApplyTask, net: Network): ApplyMove {
    match task
    case ApplyRows(rows, snap) =>
      if rows == [] || rows[0] >= |snap| || snap[rows[0]].device !in net.targets then NoTarget else StartCall(true)
    case Staging(_, _) => StageChannel
    case Staged(rows, _) => UciApply(rows != [] && rows[0] in net.applies)
    case Reloading(_, _) => ReloadNetwork
    case _ => WriteStatus
  }

  function ApplyLeft(task: ApplyTask): nat {
    match task
    case ApplyIdle => 0
    case ApplyRows(rows, _) => 6 * |rows| + 5
    case Staging(rows, _) => 6 * |rows| + 4
    case Staged(rows, _) => 6 * |rows| + 3
    case Reloading(rows, _) => 6 * |rows| + 2
    case Exited(rows, _) => 6 * |rows| + 1
    case RebootSent(rows, _) => 6 * |rows| + 1
  }

  ghost predicate ApplyProgress(commands: Table, rows: seq<nat>, t: Table, now: int, net: Network) {
    && |commands| == |t| && Fresh(rows, t, commands, Pending)
    && forall i :: 0 <= i < |t| ==> commands[i] == if i in rows then t[i] else AppliedTo(t[i], i, now, net)
  }

  /** No device still to be applied to has a timer running. */
  ghost predicate Ready(s: State, rows: seq<nat>, t: Table, net: Network) {
    forall k :: 0 <= k < |rows| ==>
      rows[k] < |t| && (t[rows[k]].param != Reboot && rows[k] in net.applies ==>
        s.Agent(t[rows[k]].device).rollback.Unarmed?)
  }

  /** At most one selected channel command per device, and every target plausible to the agent. */
  ghost predicate Selectable(rows: seq<nat>, t: Table) {
    && (forall k :: 0 <= k < |rows| ==>
          rows[k] < |t| && (t[rows[k]].param != Reboot ==> SafeApply.IsPlausibleChannel(t[rows[k]].channel)))
    && (forall j, k :: 0 <= j < k < |rows| && t[rows[j]].param != Reboot && t[rows[k]].param != Reboot ==>
          t[rows[j]].device != t[rows[k]].device)
  }

  ghost predicate Applying(s: State, t: Table, net: Network) {
    if s.apply.ApplyIdle? then ApplyProgress(s.commands, [], t, s.now, net)
    else
      var rows := s.apply.rows;
      && ApplyProgress(s.commands, rows, t, s.now, net) && s.apply.snap == t && Selectable(rows, t)
      && (s.apply.ApplyRows? ==> Ready(s, rows, t, net))
      && (!s.apply.ApplyRows? ==> rows != [] && t[rows[0]].device in net.targets)
      && (s.apply.RebootSent? ==> t[rows[0]].param == Reboot && Ready(s, rows, t, net))
      && (s.apply.Staging? || s.apply.Staged? ==> t[rows[0]].param != Reboot && Ready(s, rows, t, net))
      && (s.apply.Staged? ==> s.Agent(t[rows[0]].device).staged == Some(t[rows[0]].channel))
      && (s.apply.Reloading? || s.apply.Exited? ==>
            t[rows[0]].param != Reboot && rows[0] in net.applies && Ready(s, rows[1..], t, net))
  }

  lemma ApplyHeadDone(commands: Table, rows: seq<nat>, t: Table, now: int, net: Network)
    requires ApplyProgress(commands, rows, t, now, net) && rows != []
    ensures rows[0] < |commands| && commands[rows[0]] == t[rows[0]] && t[rows[0]].status == Pending
    ensures ApplyProgress(commands[rows[0] := AppliedTo(t[rows[0]], rows[0], now, net)], rows[1..], t, now, net)
  {
    RestOfRows(rows);
    assert forall k :: 0 <= k < |rows[1..]| ==> rows[1..][k] == rows[k + 1] && rows[k + 1] in rows;
  }

  lemma SelectableRest(rows: seq<nat>, t: Table)
    requires Selectable(rows, t) && rows != []
    ensures Selectable(rows[1..], t)
  {
    assert forall k :: 0 <= k < |rows[1..]| ==> rows[1..][k] == rows[k + 1];
  }

  lemma ReadyRest(s: State, rows: seq<nat>, t: Table, net: Network)
    requires Ready(s, rows, t, net) && rows != []
    ensures Ready(s, rows[1..], t, net)
  {
    assert forall k :: 0 <= k < |rows[1..]| ==> rows[1..][k] == rows[k + 1];
  }

  /** Whatever happens to the head's device, the rows after it are as ready as they were. */
  lemma ReadyBehindHead(s: State, rows: seq<nat>, t: Table, net: Network, a: SafeApply.Agent)
    requires rows != [] && Selectable(rows, t) && Ready(s, rows[1..], t, net) && t[rows[0]].param != Reboot
    ensures Ready(SetAgent(s, t[rows[0]].device, a), rows[1..], t, net)
  {
    assert forall k :: 0 <= k < |rows[1..]| ==> rows[1..][k] == rows[k + 1];
  }

  /** A step that leaves timers running where they run. */
  lemma ReadyWhenNotArmed(s: State, rows: seq<nat>, t: Table, net: Network, d: Device, a: SafeApply.Agent)
    requires Ready(s, rows, t, net) && (s.Agent(d).rollback.Unarmed? ==> a.rollback.Unarmed?)
    ensures Ready(SetAgent(s, d, a), rows, t, net)
  {
  }

  /** The head row leaves the queue with no effect on the table. */
  lemma Unapplied(s: State, t: Table, net: Network)
    requires !s.apply.ApplyIdle? && s.apply.rows != [] && s.apply.snap == t
    requires ApplyProgress(s.commands, s.apply.rows, t, s.now, net) && Selectable(s.apply.rows, t)
    requires Ready(s, s.apply.rows, t, net)
    requires AppliedTo(t[s.apply.rows[0]], s.apply.rows[0], s.now, net) == t[s.apply.rows[0]]
    ensures Applying(ApplyDrop(s), t, net)
  {
    var id := s.apply.rows[0];
    ApplyHeadDone(s.commands, s.apply.rows, t, s.now, net);
    assert s.commands[id := t[id]] == s.commands;
    SelectableRest(s.apply.rows, t);
    ReadyRest(s, s.apply.rows, t, net);
    assert Ready(ApplyDrop(s), s.apply.rows[1..], t, net);
  }

  lemma StartStep(s: State, t: Table, net: Network)
    requires Applying(s, t, net) && s.apply.ApplyRows? && s.apply.rows != []
    ensures Applying(ApplyNext(s, NextApply(s.apply, net)), t, net)
    ensures ApplyLeft(ApplyNext(s, NextApply(s.apply, net)).apply) < ApplyLeft(s.apply)
  {
    var rows := s.apply.rows;
    var c := t[rows[0]];
    ApplyHeadDone(s.commands, rows, t, s.now, net);
    if c.device !in net.targets {
      Unapplied(s, t, net);
    } else if c.param == Reboot {
      ReadyWhenNotArmed(s, rows, t, net, c.device, SafeApply.PowerCycle(s.Agent(c.device)));
      assert Ready(ApplyNext(s, StartCall(true)), rows, t, net);
    } else {
      assert Ready(ApplyNext(s, StartCall(true)), rows, t, net);
    }
  }

  lemma StageStep(s: State, t: Table, net: Network)
    requires Applying(s, t, net) && s.apply.Staging?
    ensures Applying(ApplyNext(s, StageChannel), t, net)
    ensures ApplyLeft(ApplyNext(s, StageChannel).apply) < ApplyLeft(s.apply)
  {
    var rows := s.apply.rows;
    var c := t[rows[0]];
    ApplyHeadDone(s.commands, rows, t, s.now, net);
    ReadyWhenNotArmed(s, rows, t, net, c.device, SafeApply.Stage(s.Agent(c.device), c.channel));
    assert Ready(ApplyNext(s, StageChannel), rows, t, net);
  }

  lemma EngageStep(s: State, t: Table, net: Network)
    requires Applying(s, t, net) && s.apply.Staged? && s.apply.rows[0] in net.applies
    ensures Applying(ApplyNext(s, UciApply(true)), t, net)
    ensures ApplyLeft(ApplyNext(s, UciApply(true)).apply) < ApplyLeft(s.apply)
  {
    var rows := s.apply.rows;
    var c := t[rows[0]];
    ApplyHeadDone(s.commands, rows, t, s.now, net);
    assert s.Agent(c.device).rollback.Unarmed?;
    ReadyRest(s, rows, t, net);
    ReadyBehindHead(s, rows, t, net, SafeApply.Apply(s.Agent(c.device), rows[0]));
    assert Ready(ApplyNext(s, UciApply(true)), rows[1..], t, net);
  }

  lemma RefusedStep(s: State, t: Table, net: Network)
    requires Applying(s, t, net) && s.apply.Staged? && s.apply.rows[0] !in net.applies
    ensures Applying(ApplyNext(s, UciApply(false)), t, net)
    ensures ApplyLeft(ApplyNext(s, UciApply(false)).apply) < ApplyLeft(s.apply)
  {
    var rows := s.apply.rows;
    var c := t[rows[0]];
    ApplyHeadDone(s.commands, rows, t, s.now, net);
    var reverted := SetAgent(s, c.device, SafeApply.Revert(s.Agent(c.device)));
    ReadyWhenNotArmed(s, rows, t, net, c.device, SafeApply.Revert(s.Agent(c.device)));
    Unapplied(reverted, t, net);
    assert ApplyNext(s, UciApply(false)) == ApplyDrop(reverted);
  }

  lemma ReloadStep(s: State, t: Table, net: Network)
    requires Applying(s, t, net) && s.apply.Reloading?
    ensures Applying(ApplyNext(s, ReloadNetwork), t, net)
    ensures ApplyLeft(ApplyNext(s, ReloadNetwork).apply) < ApplyLeft(s.apply)
  {
    var rows := s.apply.rows;
    var c := t[rows[0]];
    ApplyHeadDone(s.commands, rows, t, s.now, net);
    ReadyBehindHead(s, rows, t, net, SafeApply.Reload(s.Agent(c.device)));
    assert Ready(ApplyNext(s, ReloadNetwork), rows[1..], t, net);
  }

  /** The head row is written and leaves the queue. */
  lemma Written(s: State, next: State, t: Table, net: Network)
    requires !s.apply.ApplyIdle? && s.apply.rows != [] && s.apply.snap == t
    requires ApplyProgress(s.commands, s.apply.rows, t, s.now, net) && Selectable(s.apply.rows, t)
    requires Ready(s, s.apply.rows[1..], t, net)
    requires s.apply.rows[0] < |s.commands| && s.apply.rows[0] < |t|
    requires var id := s.apply.rows[0];
      next == s.(commands := s.commands[id := AppliedTo(t[id], id, s.now, net)],
                 apply := ApplyRows(s.apply.rows[1..], t))
    ensures Applying(next, t, net)
  {
    ApplyHeadDone(s.commands, s.apply.rows, t, s.now, net);
    SelectableRest(s.apply.rows, t);
    assert Ready(next, s.apply.rows[1..], t, net);
  }

  lemma WriteAppliedStep(s: State, t: Table, net: Network)
    requires Applying(s, t, net) && s.apply.Exited?
    ensures Applying(ApplyNext(s, WriteStatus), t, net)
    ensures ApplyLeft(ApplyNext(s, WriteStatus).apply) < ApplyLeft(s.apply)
  {
    ApplyHeadDone(s.commands, s.apply.rows, t, s.now, net);
    Written(s, ApplyNext(s, WriteStatus), t, net);
  }

  lemma WriteAckedStep(s: State, t: Table, net: Network)
    requires Applying(s, t, net) && s.apply.RebootSent?
    ensures Applying(ApplyNext(s, WriteStatus), t, net)
    ensures ApplyLeft(ApplyNext(s, WriteStatus).apply) < ApplyLeft(s.apply)
  {
    ApplyHeadDone(s.commands, s.apply.rows, t, s.now, net);
    ReadyRest(s, s.apply.rows, t, net);
    Written(s, ApplyNext(s, WriteStatus), t, net);
  }

  lemma ApplyStepApplies(s: State, t: Table, net: Network)
    requires Applying(s, t, net) && !s.apply.ApplyIdle?
    ensures Applying(ApplyNext(s, NextApply(s.apply, net)), t, net)
    ensures ApplyLeft(ApplyNext(s, NextApply(s.apply, net)).apply) < ApplyLeft(s.apply)
  {
    match s.apply
    case ApplyRows(rows, _) =>
      if rows != [] {
        StartStep(s, t, net);
      }
    case Staging(_, _) => StageStep(s, t, net);
    case Staged(rows, _) =>
      if rows[0] in net.applies {
        EngageStep(s, t, net);
      } else {
        RefusedStep(s, t, net);
      }
    case Reloading(_, _) => ReloadStep(s, t, net);
    case Exited(_, _) => WriteAppliedStep(s, t, net);
    case RebootSent(_, _) => WriteAckedStep(s, t, net);
  }

  /** The apply job's steps until it is idle, and nothing else. */
  function DriveApply(s: State, t: Table, net: Network): State
    requires Applying(s, t, net)
    decreases ApplyLeft(s.apply)
  {
    if s.apply.ApplyIdle? then s
    else
      ApplyStepApplies(s, t, net);
      DriveApply(ApplyNext(s, NextApply(s.apply, net)), t, net)
  }

  lemma {:induction false} DriveApplyEnds(s: State, t: Table, net: Network)
    requires Applying(s, t, net)
    ensures var end := DriveApply(s, t, net);
      end.apply.ApplyIdle? && end.now == s.now && Applying(end, t, net)
    decreases ApplyLeft(s.apply)
  {
    if !s.apply.ApplyIdle? {
      ApplyStepApplies(s, t, net);
      DriveApplyEnds(ApplyNext(s, NextApply(s.apply, net)), t, net);
      TimeStands(s, NextApply(s.apply, net));
    }
  }

  lemma TimeStands(s: State, m: ApplyMove)
    ensures ApplyNext(s, m).now == s.now
  {
  }

  /** The pending rows whose apply the network lets through are those of devices with no timer running. */
  ghost predicate CanApply(s: State, net: Network) {
    forall i :: 0 <= i < |s.commands| && i in net.applies && s.commands[i].status == Pending ==>
      s.commands[i].param == Reboot || s.Agent(s.commands[i].device).rollback.Unarmed?
  }

  lemma PendingAreSelectable(t: Table, now: int)
    requires TableInv(t, now)
    ensures Selectable(IdsWith(t, Pending), t)
  {
    var rows := IdsWith(t, Pending);
    forall k | 0 <= k < |rows| && t[rows[k]].param != Reboot ensures SafeApply.IsPlausibleChannel(t[rows[k]].channel) {
      PlanIsPlausible(t[rows[k]].device, t[rows[k]].channel);
    }
    forall j, k | 0 <= j < k < |rows| && t[rows[j]].param != Reboot && t[rows[k]].param != Reboot
      ensures t[rows[j]].device != t[rows[k]].device
    {
      assert Moves(t[rows[j]], t[rows[j]].device) && Moves(t[rows[k]], t[rows[k]].device);
    }
  }

  lemma PlanIsPlausible(d: Device, channel: int)
    requires channel in ChannelsOf(d)
    ensures SafeApply.IsPlausibleChannel(channel)
  {
    Plan.PlanIsPlausible(channel);
  }

  lemma ApplyBeginsApplying(s: State, net: Network)
    requires Inv(s) && s.apply.ApplyIdle? && CanApply(s, net)
    ensures Applying(ApplyBegin(s), s.commands, net)
  {
    PendingAreSelectable(s.commands, s.now);
    var rows := IdsWith(s.commands, Pending);
    assert Ready(ApplyBegin(s), rows, s.commands, net);
  }

  /** In a reachable state, an uninterrupted apply tick gives every row what the loop gives it. */
  lemma ApplyTickRefinesLoop(s: State, net: Network)
    requires Inv(s) && s.apply.ApplyIdle? && CanApply(s, net)
    ensures Applying(ApplyBegin(s), s.commands, net)
    ensures var end := DriveApply(ApplyBegin(s), s.commands, net);
      && end.apply.ApplyIdle? && |end.commands| == |s.commands|
      && forall i :: 0 <= i < |s.commands| ==> end.commands[i] == AppliedTo(s.commands[i], i, s.now, net)
  {
    ApplyBeginsApplying(s, net);
    DriveApplyEnds(ApplyBegin(s), s.commands, net);
  }
}
