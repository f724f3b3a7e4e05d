/** What every reachable state of the command protocol satisfies. */
module CommandInvariants {
  import opened Wrappers
  import opened CommandTable
  import opened CommandProtocol
  import SafeApply
  import Plan = HalowChannelPlan
  import Optimizer

  // ---------- The table ----------

  predicate Moves(c: Command, d: Device) {
    c.For(d, ParamOf(d))
  }

  predicate Failed(c: Command) {
    c.status == Reverted
  }

  /** Channel commands carry a channel of their device's plan; reboots are never applied. */
  ghost predicate WellKeyed(t: Table, now: int) {
    forall i :: 0 <= i < |t| ==>
      && t[i].createdAt <= now
      && (t[i].param == Reboot ==> t[i].status in {Pending, Acked})
      && (t[i].param != Reboot ==> Moves(t[i], t[i].device) && t[i].channel in ChannelsOf(t[i].device))
  }

  /** At most one channel command per device is pending or applied. */
  ghost predicate SingleInFlight(t: Table) {
    forall i, j, d :: 0 <= i < j < |t| && Moves(t[i], d) && Moves(t[j], d) ==> !t[i].InFlight() || !t[j].InFlight()
  }

  /** No reverted command shares its channel with another reverted or in-flight one. */
  ghost predicate DistinctFailures(t: Table) {
    forall i, j, d :: 0 <= i < |t| && 0 <= j < |t| && i != j && Moves(t[i], d) && Moves(t[j], d) ==>
      Failed(t[i]) && (Failed(t[j]) || t[j].InFlight()) ==> t[i].channel != t[j].channel
  }

  ghost predicate TableInv(t: Table, now: int) {
    WellKeyed(t, now) && SingleInFlight(t) && DistinctFailures(t)
  }

  // ---------- The jobs ----------

  /** The device an optimizer pass has found without a command in flight. */
  function KnownClear(task: OptimizerTask): Option<Device> {
    match task
    case HalowNoPending(_) => Some(AP)
    case HalowCurrent(_, _, _) => Some(AP)
    case HalowCooled(_, _, _) => Some(AP)
    case HalowWiden(_, _, _) => Some(AP)
    case HalowNarrow(_, _, _) => Some(AP)
    case Wifi24NoPending(_) => Some(STA)
    case Choosing(_, d, _, _, _) => Some(d)
    case Chosen(_, d, _) => Some(d)
    case _ => None
  }

  /** The device an optimizer pass has found out of cooldown. */
  function KnownCooled(task: OptimizerTask): Option<Device> {
    match task
    case HalowCooled(_, _, _) => Some(AP)
    case HalowWiden(_, _, _) => Some(AP)
    case HalowNarrow(_, _, _) => Some(AP)
    case Wifi24Cooled(_) => Some(STA)
    case Wifi24NoPending(_) => Some(STA)
    case Choosing(_, d, _, _, _) => Some(d)
    case Chosen(_, d, _) => Some(d)
    case _ => None
  }

  /** What a pass found out earlier still holds when it acts on it, although other jobs ran between. */
  ghost predicate OptimizerInv(t: Table, now: int, task: OptimizerTask) {
    && (KnownClear(task).Some? ==> Clear(t, KnownClear(task).value))
    && (KnownCooled(task).Some? ==> Cooled(t, KnownCooled(task).value, now, task.cfg.cooldown))
    && (task.Choosing? && !task.purpose.Cycle? ==> task.device == AP)
    && (task.Chosen? ==> task.target in ChannelsOf(task.device) && Untried(t, task.device, task.target))
  }

  ghost predicate Clear(t: Table, d: Device) {
    forall i :: 0 <= i < |t| && Moves(t[i], d) ==> !t[i].InFlight()
  }

  ghost predicate Cooled(t: Table, d: Device, now: int, cooldown: int) {
    forall i :: 0 <= i < |t| && Moves(t[i], d) ==> t[i].createdAt + cooldown <= now
  }

  ghost predicate Untried(t: Table, d: Device, channel: int) {
    forall i :: 0 <= i < |t| && Moves(t[i], d) && Failed(t[i]) ==> t[i].channel != channel
  }

  /** A job's remaining rows are still exactly what it selected: no UPDATE acts on a stale row. */
  ghost predicate Fresh(rows: seq<nat>, snap: Table, t: Table, status: Status) {
    && |snap| <= |t|
    && (forall j, k :: 0 <= j < k < |rows| ==> rows[j] < rows[k])
    && (forall k :: 0 <= k < |rows| ==> rows[k] < |snap| && snap[rows[k]] == t[rows[k]] && t[rows[k]].status == status)
  }

  predicate InCall(task: ApplyTask) {
    task.Staging? || task.Staged? || task.Reloading? || task.Exited?
  }

  ghost predicate ApplyInv(t: Table, task: ApplyTask) {
    !task.ApplyIdle? ==>
      && Fresh(task.rows, task.snap, t, Pending)
      && (InCall(task) ==> task.rows != [] && t[task.rows[0]].param != Reboot)
      && (task.RebootSent? ==> task.rows != [] && t[task.rows[0]].param == Reboot)
  }

  ghost predicate CheckInv(t: Table, task: CheckTask) {
    !task.CheckIdle? ==> Fresh(task.rows, task.snap, t, Applied) && (task.CheckAnswered? ==> task.rows != [])
  }

  // ---------- The devices ----------

  /** An armed timer belongs to the one command that can be applied on the device, and what it
    * guards is that command's channel. */
  ghost predicate OwnedBy(a: SafeApply.Agent, d: Device, t: Table, apply: ApplyTask) {
    a.rollback.Armed? ==>
      var owner := a.rollback.owner;
      && owner < |t| && Moves(t[owner], d) && t[owner].channel == a.committed
      && (forall i :: 0 <= i < |t| && Moves(t[i], d) && t[i].status == Applied ==> i == owner)
      && (apply.Reloading? || apply.Exited? ==>
            apply.rows != [] && apply.rows[0] < |t| && t[apply.rows[0]].device == d ==> apply.rows[0] == owner)
  }

  ghost predicate AgentInv(s: State, d: Device) {
    SafeApply.Safe(s.Agent(d)) && OwnedBy(s.Agent(d), d, s.commands, s.apply)
  }

  ghost predicate Inv(s: State) {
    && TableInv(s.commands, s.now)
    && OptimizerInv(s.commands, s.now, s.optimizer)
    && ApplyInv(s.commands, s.apply)
    && CheckInv(s.commands, s.check)
    && AgentInv(s, AP) && AgentInv(s, STA)
  }

  // ---------- The optimizer's steps ----------

  lemma PendingMeansMoving(t: Table, d: Device)
    ensures HasPending(t, d, ParamOf(d)) || Clear(t, d)
  {
    if !HasPending(t, d, ParamOf(d)) {
      forall i | 0 <= i < |t| && Moves(t[i], d) ensures !t[i].InFlight() {
        assert t[i].For(d, ParamOf(d));
      }
    }
  }

  lemma CooldownMeansCooled(t: Table, d: Device, now: int, cooldown: int)
    ensures InCooldown(t, d, ParamOf(d), now, cooldown) || Cooled(t, d, now, cooldown)
  {
    CooldownCoversEveryCommand(t, d, ParamOf(d), now, cooldown);
    if !InCooldown(t, d, ParamOf(d), now, cooldown) {
      forall i | 0 <= i < |t| && Moves(t[i], d) ensures t[i].createdAt + cooldown <= now {
        assert t[i].For(d, ParamOf(d));
      }
    }
  }

  lemma CandidatesInPlan(d: Device, purpose: Purpose, channel: int, bandwidth: int)
    ensures forall c :: c in Candidates(d, purpose, channel, bandwidth) ==> c in ChannelsOf(d)
  {
    forall c | c in Candidates(d, purpose, channel, bandwidth) ensures c in ChannelsOf(d) {
      if d == STA {
        Optimizer.RotationSameChannels(Plan.WIFI24_CHANNELS, channel);
      } else if purpose.Cycle? {
        Optimizer.RotationSameChannels(Plan.ValidChannels(bandwidth), channel);
        Plan.PlanSize(c, bandwidth);
      } else {
        Plan.PlanSize(c, NewBandwidth(purpose, bandwidth));
      }
    }
  }

  /** The failed set is read before the INSERT; the pick is still outside it afterwards. */
  lemma PickIsNew(t: Table, d: Device, purpose: Purpose, channel: int, bandwidth: int)
    ensures var pick := Pick(t, d, Candidates(d, purpose, channel, bandwidth));
      pick.Some? ==> pick.value in ChannelsOf(d) && Untried(t, d, pick.value)
  {
    CandidatesInPlan(d, purpose, channel, bandwidth);
    var pick := Pick(t, d, Candidates(d, purpose, channel, bandwidth));
    if pick.Some? {
      var target: int := pick.value;
      assert target in Candidates(d, purpose, channel, bandwidth);
      forall i | 0 <= i < |t| && Moves(t[i], d) && Failed(t[i]) ensures t[i].channel != target {
        assert t[i].channel in RevertedChannels(t, d, ParamOf(d));
      }
    }
  }

  lemma OptimizerReads(s: State, o: Observation)
    requires OptimizerInv(s.commands, s.now, s.optimizer) && !s.optimizer.Chosen? && !s.optimizer.Choosing?
    ensures OptimizerInv(s.commands, s.now, OptimizerNext(s, o).optimizer)
    ensures OptimizerNext(s, o) == s.(optimizer := OptimizerNext(s, o).optimizer)
  {
    match s.optimizer
    case HalowStart(_) => PendingMeansMoving(s.commands, AP);
    case Wifi24Cooled(_) => PendingMeansMoving(s.commands, STA);
    case HalowCurrent(cfg, _, _) => CooldownMeansCooled(s.commands, AP, s.now, cfg.cooldown);
    case Wifi24Degraded(cfg) => CooldownMeansCooled(s.commands, STA, s.now, cfg.cooldown);
    case _ =>
  }

  lemma OptimizerChooses(t: Table, now: int, task: OptimizerTask, pick: Option<int>)
    requires OptimizerInv(t, now, task) && task.Choosing?
    requires pick.Some? ==> pick.value in ChannelsOf(task.device) && Untried(t, task.device, pick.value)
    ensures OptimizerInv(t, now, Choose(task, pick))
  {
  }

  /** Adding a row: a reboot request, or a channel command for a device with nothing in flight. */
  ghost predicate Addable(t: Table, now: int, c: Command) {
    && c.createdAt == now && c.status == Pending
    && (c.param != Reboot ==> Moves(c, c.device) && c.channel in ChannelsOf(c.device))
    && (c.param != Reboot ==> Clear(t, c.device) && Untried(t, c.device, c.channel))
  }

  lemma AppendKeepsTable(t: Table, now: int, c: Command)
    requires TableInv(t, now) && Addable(t, now, c)
    ensures TableInv(t + [c], now)
  {
    var t' := t + [c];
    assert WellKeyed(t', now);
    assert SingleInFlight(t');
    assert DistinctFailures(t');
  }

  lemma AppendKeepsJobs(t: Table, c: Command, apply: ApplyTask, check: CheckTask)
    requires ApplyInv(t, apply) && CheckInv(t, check)
    ensures ApplyInv(t + [c], apply) && CheckInv(t + [c], check)
  {
  }

  lemma AppendKeepsAgent(t: Table, c: Command, d: Device, a: SafeApply.Agent, apply: ApplyTask)
    requires OwnedBy(a, d, t, apply) && ApplyInv(t, apply) && c.status == Pending
    ensures OwnedBy(a, d, t + [c], apply)
  {
  }

  /** The INSERT lands on a table that still has nothing in flight for the device. */
  lemma InsertKeeps(s: State, o: Observation)
    requires Inv(s) && s.optimizer.Chosen?
    ensures Inv(OptimizerNext(s, o))
  {
    var d := s.optimizer.device;
    var c := Command(d, ParamOf(d), s.optimizer.target, s.now, DefaultTtlSeconds(ParamOf(d)), Pending, 0);
    AppendKeepsTable(s.commands, s.now, c);
    AppendKeepsJobs(s.commands, c, s.apply, s.check);
    AppendKeepsAgent(s.commands, c, AP, s.ap, s.apply);
    AppendKeepsAgent(s.commands, c, STA, s.sta, s.apply);
  }

  lemma GotoKeeps(s: State, task: OptimizerTask)
    requires Inv(s) && OptimizerInv(s.commands, s.now, task)
    ensures Inv(Goto(s, task))
  {
  }

  lemma ChoiceKeeps(t: Table, now: int, task: OptimizerTask)
    requires OptimizerInv(t, now, task) && task.Choosing?
    ensures OptimizerInv(t, now, Choice(t, task))
  {
    var pick := Pick(t, task.device, Candidates(task.device, task.purpose, task.channel, task.bandwidth));
    PickIsNew(t, task.device, task.purpose, task.channel, task.bandwidth);
    OptimizerChooses(t, now, task, pick);
  }

  lemma ChoosingKeeps(s: State, o: Observation)
    requires Inv(s) && s.optimizer.Choosing?
    ensures Inv(OptimizerNext(s, o))
  {
    ChoiceKeeps(s.commands, s.now, s.optimizer);
    GotoKeeps(s, Choice(s.commands, s.optimizer));
    NextIsChoice(s, o, Choice(s.commands, s.optimizer));
  }

  lemma ReadingKeeps(s: State, o: Observation)
    requires Inv(s) && !s.optimizer.Chosen? && !s.optimizer.Choosing?
    ensures Inv(OptimizerNext(s, o))
  {
    OptimizerReads(s, o);
    GotoKeeps(s, OptimizerNext(s, o).optimizer);
  }

  lemma OptimizerKeeps(s: State, o: Observation)
    requires Inv(s)
    ensures Inv(OptimizerNext(s, o))
  {
    if s.optimizer.Chosen? {
      InsertKeeps(s, o);
    } else if s.optimizer.Choosing? {
      ChoosingKeeps(s, o);
    } else {
      ReadingKeeps(s, o);
    }
  }

  // ---------- The apply job's steps ----------

  /** Beside a pending channel command no other one of the device is applied. */
  lemma PendingIsAlone(t: Table, d: Device, id: nat)
    requires SingleInFlight(t) && id < |t| && Moves(t[id], d) && t[id].status == Pending
    ensures forall i :: 0 <= i < |t| && Moves(t[i], d) ==> t[i].status != Applied
  {
    forall i | 0 <= i < |t| && Moves(t[i], d) ensures t[i].status != Applied {
      if i < id {
        assert !t[i].InFlight();
      }
    }
  }

  lemma ApplyBeginKeeps(s: State)
    requires Inv(s)
    ensures Inv(ApplyBegin(s))
  {
  }

  ghost predicate ApplyBusy(s: State) {
    !s.apply.ApplyIdle? && s.apply.rows != []
  }

  lemma ApplyDropKeeps(s: State)
    requires Inv(s) && ApplyBusy(s)
    ensures Inv(ApplyDrop(s))
  {
  }

  /** Changing a device while no apply has yet armed anything for the head row. */
  lemma AgentChangeKeeps(s: State, d: Device, a: SafeApply.Agent, apply: ApplyTask)
    requires Inv(s) && ApplyInv(s.commands, apply)
    requires SafeApply.Safe(a) && OwnedBy(a, d, s.commands, apply)
    requires apply == s.apply || !(apply.Reloading? || apply.Exited?) ||
             (ApplyBusy(s) && s.apply.rows == apply.rows && s.commands[apply.rows[0]].device == d)
    ensures Inv(SetAgent(s, d, a).(apply := apply))
  {
  }

  lemma UciApplyKeeps(s: State)
    requires Inv(s) && s.apply.Staged?
    requires s.Agent(s.commands[s.apply.rows[0]].device).rollback.Unarmed?
    requires s.Agent(s.commands[s.apply.rows[0]].device).staged == Some(s.commands[s.apply.rows[0]].channel)
    ensures Inv(ApplyNext(s, UciApply(true)))
  {
    var id := s.apply.rows[0];
    var c := s.commands[id];
    var a := s.Agent(c.device);
    PendingIsAlone(s.commands, c.device, id);
    AgentChangeKeeps(s, c.device, SafeApply.Apply(a, id), Reloading(s.apply.rows, s.apply.snap));
  }

  lemma StartCallKeeps(s: State, reached: bool)
    requires Inv(s) && ApplyBusy(s) && s.apply.ApplyRows?
    ensures Inv(ApplyNext(s, StartCall(reached)))
  {
    var rows, snap := s.apply.rows, s.apply.snap;
    var c := s.commands[rows[0]];
    var a := s.Agent(c.device);
    if c.param == Reboot {
      AgentChangeKeeps(s, c.device, if reached then SafeApply.PowerCycle(a) else a, RebootSent(rows, snap));
    }
  }

  lemma StageKeeps(s: State)
    requires Inv(s) && s.apply.Staging?
    ensures Inv(ApplyNext(s, StageChannel))
  {
    var rows, snap := s.apply.rows, s.apply.snap;
    var c := s.commands[rows[0]];
    AgentChangeKeeps(s, c.device, SafeApply.Stage(s.Agent(c.device), c.channel), Staged(rows, snap));
    ApplyDropKeeps(s);
  }

  lemma RevertKeeps(s: State)
    requires Inv(s) && s.apply.Staged?
    ensures Inv(ApplyDrop(SetAgent(s, s.commands[s.apply.rows[0]].device,
                                   SafeApply.Revert(s.Agent(s.commands[s.apply.rows[0]].device)))))
  {
    var c := s.commands[s.apply.rows[0]];
    var reverted := SafeApply.Revert(s.Agent(c.device));
    AgentChangeKeeps(s, c.device, reverted, s.apply);
    ApplyDropKeeps(SetAgent(s, c.device, reverted));
  }

  lemma ReloadKeeps(s: State)
    requires Inv(s) && s.apply.Reloading?
    ensures Inv(ApplyNext(s, ReloadNetwork))
  {
    var rows, snap := s.apply.rows, s.apply.snap;
    var c := s.commands[rows[0]];
    AgentChangeKeeps(s, c.device, SafeApply.Reload(s.Agent(c.device)), Exited(rows, snap));
  }

  lemma ApplyCallKeeps(s: State, m: ApplyMove)
    requires Inv(s) && ApplyBusy(s) && m != WriteStatus
    ensures Inv(ApplyNext(s, m))
  {
    ApplyDropKeeps(s);
    if s.apply.ApplyRows? && m.StartCall? {
      StartCallKeeps(s, m.reached);
    } else if s.apply.Staging? && m.StageChannel? {
      StageKeeps(s);
    } else if s.apply.Staged? && m.UciApply? {
      var c := s.commands[s.apply.rows[0]];
      RevertKeeps(s);
      if s.Agent(c.device).staged == Some(c.channel) && m.engages && s.Agent(c.device).rollback.Unarmed? {
        UciApplyKeeps(s);
      }
    } else if s.apply.Reloading? && m.ReloadNetwork? {
      ReloadKeeps(s);
    } else {
      assert ApplyNext(s, m) == s || ApplyNext(s, m) == ApplyDrop(s);
    }
  }

  // ---------- Rewriting a row ----------

  /** The row a job rewrites keeps its key, and becomes in flight or failed only from in flight. */
  ghost predicate Rewrites(t: Table, id: nat, c: Command) {
    && id < |t|
    && c.device == t[id].device && c.param == t[id].param && c.channel == t[id].channel
    && c.createdAt == t[id].createdAt
    && t[id].InFlight()
    && (c.param == Reboot ==> c.status in {Pending, Acked})
  }

  lemma RewriteKeepsTable(t: Table, now: int, id: nat, c: Command)
    requires TableInv(t, now) && Rewrites(t, id, c)
    ensures TableInv(t[id := c], now)
  {
    var t' := t[id := c];
    assert WellKeyed(t', now);
    assert SingleInFlight(t');
    assert DistinctFailures(t');
  }

  lemma RewriteKeepsOptimizer(t: Table, now: int, id: nat, c: Command, task: OptimizerTask)
    requires OptimizerInv(t, now, task) && Rewrites(t, id, c)
    ensures OptimizerInv(t[id := c], now, task)
  {
  }

  lemma RewriteKeepsFresh(rows: seq<nat>, snap: Table, t: Table, status: Status, id: nat, c: Command)
    requires Fresh(rows, snap, t, status) && id < |t| && t[id].status != status
    ensures Fresh(rows, snap, t[id := c], status)
  {
  }

  /** The unguarded UPDATE meets the row in the status the job selected it in. */
  lemma ApplyWriteKeepsJobs(t: Table, apply: ApplyTask, check: CheckTask, c: Command)
    requires ApplyInv(t, apply) && CheckInv(t, check) && (apply.Exited? || apply.RebootSent?)
    ensures ApplyInv(t[apply.rows[0] := c], ApplyRows(apply.rows[1..], apply.snap))
    ensures CheckInv(t[apply.rows[0] := c], check)
  {
    if !check.CheckIdle? {
      RewriteKeepsFresh(check.rows, check.snap, t, Applied, apply.rows[0], c);
    }
  }

  lemma ApplyWriteKeepsAgent(t: Table, d: Device, a: SafeApply.Agent, apply: ApplyTask, c: Command)
    requires SingleInFlight(t) && ApplyInv(t, apply) && (apply.Exited? || apply.RebootSent?)
    requires OwnedBy(a, d, t, apply) && Rewrites(t, apply.rows[0], c)
    requires c.status == if apply.Exited? then Applied else Acked
    ensures OwnedBy(a, d, t[apply.rows[0] := c], ApplyRows(apply.rows[1..], apply.snap))
  {
  }

  lemma ApplyWriteKeeps(s: State)
    requires Inv(s) && (s.apply.Exited? || s.apply.RebootSent?)
    ensures Inv(ApplyNext(s, WriteStatus))
  {
    var id := s.apply.rows[0];
    var c := s.commands[id].(status := if s.apply.Exited? then Applied else Acked, appliedAt := s.now);
    RewriteKeepsTable(s.commands, s.now, id, c);
    RewriteKeepsOptimizer(s.commands, s.now, id, c, s.optimizer);
    ApplyWriteKeepsJobs(s.commands, s.apply, s.check, c);
    ApplyWriteKeepsAgent(s.commands, AP, s.ap, s.apply, c);
    ApplyWriteKeepsAgent(s.commands, STA, s.sta, s.apply, c);
    assert ApplyNext(s, WriteStatus) ==
      s.(commands := s.commands[id := c], apply := ApplyRows(s.apply.rows[1..], s.apply.snap));
  }

  // ---------- The check job's steps ----------

  ghost predicate CheckBusy(s: State) {
    !s.check.CheckIdle? && s.check.rows != []
  }

  lemma CheckBeginKeeps(s: State, delaySeconds: int)
    requires Inv(s)
    ensures Inv(CheckBegin(s, delaySeconds))
  {
  }

  lemma CheckDropKeeps(s: State)
    requires Inv(s) && CheckBusy(s)
    ensures Inv(CheckDrop(s))
  {
  }

  /** The command being verified is the one the armed timer guards, so what gets confirmed is the
    * channel that was seen live. */
  lemma VerifyKeeps(s: State, m: CheckMove)
    requires Inv(s) && s.check.CheckRows? && CheckBusy(s) && m.Verify?
    ensures Inv(CheckNext(s, m))
  {
    var c := s.commands[s.check.rows[0]];
    assert Moves(c, c.device);
    CheckDropKeeps(s);
    AgentChangeKeeps(s, c.device, SafeApply.Confirm(s.Agent(c.device), c.channel), s.apply);
  }

  lemma CheckWriteKeepsJobs(t: Table, apply: ApplyTask, check: CheckTask, c: Command)
    requires ApplyInv(t, apply) && CheckInv(t, check) && check.CheckAnswered?
    ensures CheckInv(t[check.rows[0] := c], CheckRows(check.rows[1..], check.snap, check.at, check.delay))
    ensures c.param == t[check.rows[0]].param ==> ApplyInv(t[check.rows[0] := c], apply)
  {
    if !apply.ApplyIdle? {
      RewriteKeepsFresh(apply.rows, apply.snap, t, Pending, check.rows[0], c);
    }
  }

  lemma CheckWriteKeepsAgent(t: Table, d: Device, a: SafeApply.Agent, apply: ApplyTask, id: nat, c: Command)
    requires OwnedBy(a, d, t, apply) && Rewrites(t, id, c) && c.status != Applied
    ensures OwnedBy(a, d, t[id := c], apply)
  {
  }

  /** The row the check job is about to write. */
  function Judged(s: State): Command
    requires s.check.CheckAnswered? && s.check.rows != [] && s.check.rows[0] < |s.commands|
  {
    var c := s.commands[s.check.rows[0]];
    c.(status := Verdict(c, s.check.at - c.appliedAt, s.check.delay, s.check.answer))
  }

  lemma NextIsJudged(s: State, id: nat, c: Command)
    requires CheckInv(s.commands, s.check) && s.check.CheckAnswered? && id == s.check.rows[0]
    requires c == Judged(s)
    ensures CheckNext(s, WriteVerdict) ==
      CheckDrop(if c == s.commands[id] then s else s.(commands := s.commands[id := c]))
  {
  }

  lemma JudgedMoves(s: State, id: nat, c: Command)
    requires CheckInv(s.commands, s.check) && s.check.CheckAnswered? && id == s.check.rows[0]
    requires c == Judged(s) && c != s.commands[id] && WellKeyed(s.commands, s.now)
    ensures Rewrites(s.commands, id, c) && c.status != Applied
  {
  }

  lemma RewriteKeeps(s: State, id: nat, c: Command)
    requires Inv(s) && s.check.CheckAnswered? && id == s.check.rows[0]
    requires Rewrites(s.commands, id, c) && c.status != Applied
    ensures Inv(CheckDrop(s.(commands := s.commands[id := c])))
  {
    RewriteKeepsTable(s.commands, s.now, id, c);
    RewriteKeepsOptimizer(s.commands, s.now, id, c, s.optimizer);
    CheckWriteKeepsJobs(s.commands, s.apply, s.check, c);
    CheckWriteKeepsAgent(s.commands, AP, s.ap, s.apply, id, c);
    CheckWriteKeepsAgent(s.commands, STA, s.sta, s.apply, id, c);
  }

  lemma CheckWriteKeeps(s: State)
    requires Inv(s) && s.check.CheckAnswered?
    ensures Inv(CheckNext(s, WriteVerdict))
  {
    var id := s.check.rows[0];
    var c := Judged(s);
    NextIsJudged(s, id, c);
    if c == s.commands[id] {
      CheckDropKeeps(s);
    } else {
      JudgedMoves(s, id, c);
      RewriteKeeps(s, id, c);
    }
  }

  // ---------- Every step, every run ----------

  lemma RequestRebootKeeps(s: State, d: Device)
    requires Inv(s)
    ensures Inv(Step(s, RequestReboot(d)))
  {
    var c := Command(d, Reboot, 0, s.now, DefaultTtlSeconds(Reboot), Pending, 0);
    AppendKeepsTable(s.commands, s.now, c);
    AppendKeepsJobs(s.commands, c, s.apply, s.check);
    AppendKeepsAgent(s.commands, c, AP, s.ap, s.apply);
    AppendKeepsAgent(s.commands, c, STA, s.sta, s.apply);
    AppendKeepsOptimizer(s.commands, s.now, c, s.optimizer);
  }

  lemma AppendKeepsOptimizer(t: Table, now: int, c: Command, task: OptimizerTask)
    requires OptimizerInv(t, now, task) && c.param == Reboot
    ensures OptimizerInv(t + [c], now, task)
  {
  }

  lemma ApplyStepKeeps(s: State, m: ApplyMove)
    requires Inv(s)
    ensures Inv(ApplyNext(s, m))
  {
    if ApplyBusy(s) {
      if m != WriteStatus {
        ApplyCallKeeps(s, m);
      } else if s.apply.Exited? || s.apply.RebootSent? {
        ApplyWriteKeeps(s);
      }
    }
  }

  lemma CheckStepKeeps(s: State, m: CheckMove)
    requires Inv(s)
    ensures Inv(CheckNext(s, m))
  {
    if CheckBusy(s) {
      if m.NoTargetRow? {
        CheckDropKeeps(s);
      } else if s.check.CheckRows? && m.Verify? {
        VerifyKeeps(s, m);
      } else if s.check.CheckAnswered? && m.WriteVerdict? {
        CheckWriteKeeps(s);
      }
    }
  }

  lemma DeviceStepKeeps(s: State, d: Device)
    requires Inv(s)
    ensures Inv(Step(s, TimerFires(d))) && Inv(Step(s, PowerCycles(d)))
  {
    AgentChangeKeeps(s, d, SafeApply.FireTimer(s.Agent(d)), s.apply);
    AgentChangeKeeps(s, d, SafeApply.PowerCycle(s.Agent(d)), s.apply);
  }

  lemma TickKeeps(s: State, elapsed: nat)
    requires Inv(s)
    ensures Inv(Step(s, Tick(elapsed)))
  {
  }

  lemma QuietStepKeeps(s: State, a: Action)
    requires Inv(s) && (a.Tick? || a.OptimizerBegins? || a.Aborts?)
    ensures Inv(Step(s, a))
  {
    if a.Tick? {
      TickKeeps(s, a.elapsed);
    }
  }

  lemma StepKeepsInv(s: State, a: Action)
    requires Inv(s)
    ensures Inv(Step(s, a))
  {
    match a
    case OptimizerStep(o) => OptimizerKeeps(s, o);
    case ApplyBegins => ApplyBeginKeeps(s);
    case ApplyStep(m) => ApplyStepKeeps(s, m);
    case CheckBegins(delay) => CheckBeginKeeps(s, delay);
    case CheckStep(m) => CheckStepKeeps(s, m);
    case TimerFires(d) => DeviceStepKeeps(s, d);
    case PowerCycles(d) => DeviceStepKeeps(s, d);
    case RequestReboot(d) => RequestRebootKeeps(s, d);
    case _ => QuietStepKeeps(s, a);
  }
}
