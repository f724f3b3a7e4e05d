/** The command protocol as a state machine: the optimizer, apply and check jobs of the server, each
  * interrupted at every await, interleaved with the devices' rollback timers, reboots, lost replies
  * and server restarts. A run is any sequence of actions; an action that does not apply in a state
  * leaves it as it is. */
module CommandProtocol {
  import opened Wrappers
  import opened CommandTable
  import SafeApply
  import Plan = HalowChannelPlan
  import Optimizer

  // ---------- States ----------

  /** The row of optimizer_state, read once per pass. */
  datatype Settings = Settings(enabled: bool, cooldown: int, retryThreshold: real, cycling: bool,
                               bandwidthChanges: bool, wifi24: bool, widenThreshold: real, narrowThreshold: real)

  datatype Purpose = Cycle | Widen | Narrow

  /** Where an optimizer pass stands between two awaits. */
  datatype OptimizerTask =
    | OptimizerIdle
    | HalowStart(cfg: Settings)
    | HalowNoPending(cfg: Settings)
    | HalowCurrent(cfg: Settings, channel: int, bandwidth: int)
    | HalowCooled(cfg: Settings, channel: int, bandwidth: int)
    | HalowWiden(cfg: Settings, channel: int, bandwidth: int)
    | HalowNarrow(cfg: Settings, channel: int, bandwidth: int)
    | Wifi24Start(cfg: Settings)
    | Wifi24Degraded(cfg: Settings)
    | Wifi24Cooled(cfg: Settings)
    | Wifi24NoPending(cfg: Settings)
    | Choosing(cfg: Settings, device: Device, purpose: Purpose, channel: int, bandwidth: int)
    | Chosen(cfg: Settings, device: Device, target: int)

  /** A job works through the ids it selected (`rows`, the head is next) and knows the rows only as
    * they were then (`snap`). The later constructors are the awaits inside the head's turn. */
  datatype ApplyTask =
    | ApplyIdle
    | ApplyRows(rows: seq<nat>, snap: Table)
    | Staging(rows: seq<nat>, snap: Table)
    | Staged(rows: seq<nat>, snap: Table)
    | Reloading(rows: seq<nat>, snap: Table)
    | Exited(rows: seq<nat>, snap: Table)
    | RebootSent(rows: seq<nat>, snap: Table)

  datatype CheckTask =
    | CheckIdle
    | CheckRows(rows: seq<nat>, snap: Table, at: int, delay: int)
    | CheckAnswered(rows: seq<nat>, snap: Table, at: int, delay: int, answer: Option<bool>)

  datatype State = State(now: int, commands: Table, optimizer: OptimizerTask, apply: ApplyTask, check: CheckTask,
                         ap: SafeApply.Agent, sta: SafeApply.Agent)
  {
    function Agent(d: Device): SafeApply.Agent {
      match d case AP => ap case STA => sta
    }
  }

  // ---------- Actions ----------

  /** What the next await of the optimizer finds: whether the device row exists, the latest channel
    * and bandwidth, and the average over the window it asks for. */
  datatype Observation = Observation(present: bool, channel: Option<int>, bandwidth: Option<int>, average: Option<real>)

  datatype ApplyMove =
    | NoTarget                    // no device_targets row for the role
    | StartCall(reached: bool)    // open the SSH call; `reached` matters to a reboot only
    | StageChannel
    | UciApply(engages: bool)
    | ReloadNetwork
    | CallFails                   // the call ends in an exception, its effects so far stay
    | WriteStatus

  datatype CheckMove =
    | NoTargetRow
    | Verify(ran: bool, live: Option<int>, peer: bool, replied: bool)
    | WriteVerdict

  datatype Job = OptimizerJob | ApplyJob | CheckJob

  datatype Action =
    | Tick(elapsed: nat)
    | OptimizerBegins(cfg: Settings)
    | OptimizerStep(seen: Observation)
    | ApplyBegins
    | ApplyStep(applyMove: ApplyMove)
    | CheckBegins(delaySeconds: int)
    | CheckStep(checkMove: CheckMove)
    | Aborts(job: Job)
    | TimerFires(device: Device)
    | PowerCycles(device: Device)
    | RequestReboot(device: Device)

  // ---------- The optimizer ----------

  function Goto(s: State, task: OptimizerTask): State {
    s.(optimizer := task)
  }

  /** What follows the HaLow evaluation within a pass. */
  function AfterHalow(cfg: Settings): OptimizerTask {
    if cfg.wifi24 then Wifi24Start(cfg) else OptimizerIdle
  }

  function After(cfg: Settings, device: Device): OptimizerTask {
    match device case AP => AfterHalow(cfg) case STA => OptimizerIdle
  }

  function NarrowOrDone(cfg: Settings, channel: int, bandwidth: int): OptimizerTask {
    if bandwidth != 1 then HalowNarrow(cfg, channel, bandwidth) else AfterHalow(cfg)
  }

  predicate Degraded(average: Option<real>, cfg: Settings) {
    average.Some? && average.value >= cfg.retryThreshold
  }

  function NewBandwidth(purpose: Purpose, bandwidth: int): int {
    match purpose
    case Cycle => bandwidth
    case Widen => 2 * bandwidth
    case Narrow => bandwidth / 2
  }

  /** The channels to try, in order of preference. */
  function Candidates(device: Device, purpose: Purpose, channel: int, bandwidth: int): seq<int> {
    match device
    case STA => Optimizer.Rotation(Plan.WIFI24_CHANNELS, channel)
    case AP =>
      if purpose.Cycle? then Optimizer.Rotation(Plan.ValidChannels(bandwidth), channel)
      else Plan.ValidChannels(NewBandwidth(purpose, bandwidth))
  }

  function Pick(t: Table, device: Device, candidates: seq<int>): Option<int> {
    Optimizer.FirstAllowed(candidates, RevertedChannels(t, device, ParamOf(device)))
  }

  function Choose(task: OptimizerTask, pick: Option<int>): OptimizerTask
    requires task.Choosing?
  {
    match pick
    case Some(target) => Chosen(task.cfg, task.device, target)
    case None =>
      if task.purpose.Widen? then NarrowOrDone(task.cfg, task.channel, task.bandwidth)
      else After(task.cfg, task.device)
  }

  function Choice(t: Table, task: OptimizerTask): OptimizerTask
    requires task.Choosing?
  {
    Choose(task, Pick(t, task.device, Candidates(task.device, task.purpose, task.channel, task.bandwidth)))
  }

  function OptimizerBegin(s: State, cfg: Settings): State {
    if !s.optimizer.OptimizerIdle? || !cfg.enabled then s
    else if cfg.cycling || cfg.bandwidthChanges then Goto(s, HalowStart(cfg))
    else Goto(s, AfterHalow(cfg))
  }

  function OptimizerNext(s: State, o: Observation): State {
    match s.optimizer
    case OptimizerIdle => s
    case HalowStart(cfg) =>
      Goto(s, if !o.present || HasPending(s.commands, AP, HalowOperatingFreq) then AfterHalow(cfg)
              else HalowNoPending(cfg))
    case HalowNoPending(cfg) =>
      Goto(s, if o.channel.None? || o.bandwidth.None? then AfterHalow(cfg)
              else HalowCurrent(cfg, o.channel.value, o.bandwidth.value))
    case HalowCurrent(cfg, c, bw) =>
      Goto(s, if InCooldown(s.commands, AP, HalowOperatingFreq, s.now, cfg.cooldown) then AfterHalow(cfg)
              else HalowCooled(cfg, c, bw))
    case HalowCooled(cfg, c, bw) =>
      Goto(s, if Degraded(o.average, cfg) then
                (if cfg.cycling && Plan.ValidChannels(bw) != [] then Choosing(cfg, AP, Cycle, c, bw)
                 else AfterHalow(cfg))
              else if !cfg.bandwidthChanges then AfterHalow(cfg)
              else if bw != 8 then HalowWiden(cfg, c, bw)
              else NarrowOrDone(cfg, c, bw))
    case HalowWiden(cfg, c, bw) =>
      // a bandwidth that is no tier raises, which ends the whole pass
      Goto(s, if o.average.None? || o.average.value < cfg.widenThreshold then NarrowOrDone(cfg, c, bw)
              else if bw in {1, 2, 4} then Choosing(cfg, AP, Widen, c, bw)
              else OptimizerIdle)
    case HalowNarrow(cfg, c, bw) =>
      Goto(s, if o.average.None? || o.average.value > cfg.narrowThreshold then AfterHalow(cfg)
              else if bw in {2, 4, 8} then Choosing(cfg, AP, Narrow, c, bw)
              else OptimizerIdle)
    case Wifi24Start(cfg) =>
      Goto(s, if !o.present || !Degraded(o.average, cfg) then OptimizerIdle else Wifi24Degraded(cfg))
    case Wifi24Degraded(cfg) =>
      Goto(s, if InCooldown(s.commands, STA, Wifi24Channel, s.now, cfg.cooldown) then OptimizerIdle
              else Wifi24Cooled(cfg))
    case Wifi24Cooled(cfg) =>
      Goto(s, if HasPending(s.commands, STA, Wifi24Channel) then OptimizerIdle else Wifi24NoPending(cfg))
    case Wifi24NoPending(cfg) =>
      Goto(s, if o.channel.None? then OptimizerIdle else Choosing(cfg, STA, Cycle, o.channel.value, 0))
    case Choosing(cfg, device, purpose, c, bw) =>
      Goto(s, Choice(s.commands, s.optimizer))
    case Chosen(cfg, device, target) =>
      Insert(s, device, ParamOf(device), target).(optimizer := After(cfg, device))
  }

  function Insert(s: State, device: Device, param: Param, channel: int): State {
    s.(commands := s.commands + [Command(device, param, channel, s.now, DefaultTtlSeconds(param), Pending, 0)])
  }

  lemma NextIsChoice(s: State, o: Observation, next: OptimizerTask)
    requires s.optimizer.Choosing? && next == Choice(s.commands, s.optimizer)
    ensures OptimizerNext(s, o) == Goto(s, next)
  {
  }

  // ---------- The apply job ----------

  function ApplyDrop(s: State): State
    requires !s.apply.ApplyIdle? && s.apply.rows != []
  {
    s.(apply := ApplyRows(s.apply.rows[1..], s.apply.snap))
  }

  /** The whole row is rewritten by id, whatever its status has become since the SELECT. */
  function SetStatus(s: State, id: nat, status: Status): State
    requires id < |s.commands|
  {
    s.(commands := s.commands[id := s.commands[id].(status := status)])
  }

  function SetAgent(s: State, device: Device, a: SafeApply.Agent): State {
    match device case AP => s.(ap := a) case STA => s.(sta := a)
  }

  function ApplyBegin(s: State): State {
    if s.apply.ApplyIdle? then s.(apply := ApplyRows(IdsWith(s.commands, Pending), s.commands)) else s
  }

  function ApplyNext(s: State, m: ApplyMove): State
  {
    if s.apply.ApplyIdle? then s
    else if s.apply.rows == [] then s.(apply := ApplyIdle)
    else if s.apply.rows[0] >= |s.apply.snap| || s.apply.rows[0] >= |s.commands| then s
    else ApplyHead(s, m, s.apply.rows[0], s.apply.snap[s.apply.rows[0]])
  }

  /** One await of the head row's turn. `c` is the row as selected, `id` where the UPDATE goes. */
  function ApplyHead(s: State, m: ApplyMove, id: nat, c: Command): State
    requires !s.apply.ApplyIdle? && s.apply.rows != [] && id < |s.commands|
  {
    var rows, snap := s.apply.rows, s.apply.snap;
    var a := s.Agent(c.device);
    match (s.apply, m)
    case (ApplyRows(_, _), NoTarget) => ApplyDrop(s)
    case (ApplyRows(_, _), StartCall(reached)) =>
      if c.param == Reboot then
        SetAgent(s, c.device, if reached then SafeApply.PowerCycle(a) else a).(apply := RebootSent(rows, snap))
      else s.(apply := Staging(rows, snap))
    case (Staging(_, _), StageChannel) =>
      if SafeApply.IsPlausibleChannel(c.channel)
      then SetAgent(s, c.device, SafeApply.Stage(a, c.channel)).(apply := Staged(rows, snap))
      else ApplyDrop(s)
    case (Staged(_, _), UciApply(engages)) =>
      if a.staged != Some(c.channel) then ApplyDrop(s)  // a reboot has killed the script
      else if engages && a.rollback.Unarmed?
      then SetAgent(s, c.device, SafeApply.Apply(a, id)).(apply := Reloading(rows, snap))
      else ApplyDrop(SetAgent(s, c.device, SafeApply.Revert(a)))
    case (Reloading(_, _), ReloadNetwork) =>
      SetAgent(s, c.device, SafeApply.Reload(a)).(apply := Exited(rows, snap))
    case (Exited(_, _), WriteStatus) =>
      ApplyDrop(s.(commands := s.commands[id := s.commands[id].(status := Applied, appliedAt := s.now)]))
    case (RebootSent(_, _), WriteStatus) =>
      ApplyDrop(s.(commands := s.commands[id := s.commands[id].(status := Acked, appliedAt := s.now)]))
    case (Staging(_, _), CallFails) => ApplyDrop(s)
    case (Staged(_, _), CallFails) => ApplyDrop(s)
    case (Reloading(_, _), CallFails) => ApplyDrop(s)
    case (Exited(_, _), CallFails) => ApplyDrop(s)
    case _ => s
  }

  // ---------- The check job ----------

  function CheckDrop(s: State): State
    requires !s.check.CheckIdle? && s.check.rows != []
  {
    s.(check := CheckRows(s.check.rows[1..], s.check.snap, s.check.at, s.check.delay))
  }

  function CheckBegin(s: State, delaySeconds: int): State {
    if s.check.CheckIdle?
    then s.(check := CheckRows(IdsWith(s.commands, Applied), s.commands, s.now, delaySeconds))
    else s
  }

  function CheckNext(s: State, m: CheckMove): State
  {
    if s.check.CheckIdle? then s
    else if s.check.rows == [] then s.(check := CheckIdle)
    else if s.check.rows[0] >= |s.check.snap| || s.check.rows[0] >= |s.commands| then s
    else CheckHead(s, m, s.check.rows[0], s.check.snap[s.check.rows[0]])
  }

  function CheckHead(s: State, m: CheckMove, id: nat, c: Command): State
    requires !s.check.CheckIdle? && s.check.rows != [] && id < |s.commands|
  {
    var elapsed := s.check.at - c.appliedAt;
    match (s.check, m)
    case (CheckRows(rows, snap, at, delay), NoTargetRow) => CheckDrop(s)
    case (CheckRows(rows, snap, at, delay), Verify(ran, live, peer, replied)) =>
      if elapsed < delay * SECOND then CheckDrop(s)
      else
        var matches := ran && SafeApply.Matches(c.channel, c.param == HalowOperatingFreq, live, peer);
        var a := s.Agent(c.device);
        SetAgent(s, c.device, if matches then SafeApply.Confirm(a, c.channel) else a)
        .(check := CheckAnswered(rows, snap, at, delay, if replied then Some(matches) else None))
    case (CheckAnswered(rows, snap, at, delay, answer), WriteVerdict) =>
      var status := Verdict(c, elapsed, delay, answer);
      CheckDrop(if status == c.status then s else SetStatus(s, id, status))
    case _ => s
  }

  // ---------- Runs ----------

  function Step(s: State, a: Action): State
  {
    match a
    case Tick(elapsed) => s.(now := s.now + elapsed)
    case OptimizerBegins(cfg) => OptimizerBegin(s, cfg)
    case OptimizerStep(seen) => OptimizerNext(s, seen)
    case ApplyBegins => ApplyBegin(s)
    case ApplyStep(m) => ApplyNext(s, m)
    case CheckBegins(delay) => CheckBegin(s, delay)
    case CheckStep(m) => CheckNext(s, m)
    case Aborts(OptimizerJob) => s.(optimizer := OptimizerIdle)
    case Aborts(ApplyJob) => s.(apply := ApplyIdle)
    case Aborts(CheckJob) => s.(check := CheckIdle)
    case TimerFires(d) => SetAgent(s, d, SafeApply.FireTimer(s.Agent(d)))
    case PowerCycles(d) => SetAgent(s, d, SafeApply.PowerCycle(s.Agent(d)))
    case RequestReboot(d) => Insert(s, d, Reboot, 0)
  }

  function Start(now: int, apChannel: int, staChannel: int): State {
    State(now, [], OptimizerIdle, ApplyIdle, CheckIdle,
          SafeApply.Boot(apChannel), SafeApply.Boot(staChannel))
  }
}
