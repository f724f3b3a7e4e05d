/** One optimizer pass run without interruption (app/optimizer.py, run_optimizer_pass, _evaluate_halow_link and
  * _evaluate_wifi24_link): what it may and must command, and that the step-by-step form in
  * CommandProtocol does the same when nothing comes between its steps. */
module OptimizerPass {
  import opened Wrappers
  import opened CommandTable
  import opened CommandProtocol
  import Optimizer
  import Plan = HalowChannelPlan

  /** What the telemetry says about the HaLow link: the AP's row, its latest channel and bandwidth, and the
    * averages over the three windows. */
  datatype Link = Link(present: bool, channel: Option<int>, bandwidth: Option<int>, retries: Option<real>,
                       widenUse: Option<real>, narrowUse: Option<real>)

  /** The same for the STA's 2.4GHz radio. */
  datatype Wifi = Wifi(present: bool, retries: Option<real>, channel: Option<int>)

  datatype Decision = Stay | Move(channel: int) | Raise

  function FromPick(pick: Option<int>): Decision {
    match pick case None => Stay case Some(c) => Move(c)
  }

  function Failed(t: Table, d: Device): set<int> {
    RevertedChannels(t, d, ParamOf(d))
  }

  function Widen(failed: set<int>, cfg: Settings, bandwidth: int, use: Option<real>): Decision {
    if bandwidth == 8 || use.None? || use.value < cfg.widenThreshold then Stay
    else if bandwidth in {1, 2, 4} then FromPick(Optimizer.PickForBandwidth(2 * bandwidth, failed))
    else Raise
  }

  function Narrow(failed: set<int>, cfg: Settings, bandwidth: int, use: Option<real>): Decision {
    if bandwidth == 1 || use.None? || use.value > cfg.narrowThreshold then Stay
    else if bandwidth in {2, 4, 8} then FromPick(Optimizer.PickForBandwidth(bandwidth / 2, failed))
    else Raise
  }

  /** Nothing forbids a HaLow command: the link is known, none is in flight, none is recent. */
  predicate HalowFree(t: Table, now: int, cfg: Settings, link: Link) {
    && link.present && !HasPending(t, AP, HalowOperatingFreq) && link.channel.Some? && link.bandwidth.Some?
    && !InCooldown(t, AP, HalowOperatingFreq, now, cfg.cooldown)
  }

  function HalowDecision(t: Table, now: int, cfg: Settings, link: Link): Decision {
    if !HalowFree(t, now, cfg, link) then Stay
    else if Degraded(link.retries, cfg) then
      if cfg.cycling
      then FromPick(Optimizer.CyclePick(Plan.ValidChannels(link.bandwidth.value), link.channel.value, Failed(t, AP)))
      else Stay
    else if !cfg.bandwidthChanges then Stay
    else
      var widened := Widen(Failed(t, AP), cfg, link.bandwidth.value, link.widenUse);
      if widened != Stay then widened else Narrow(Failed(t, AP), cfg, link.bandwidth.value, link.narrowUse)
  }

  predicate Wifi24Free(t: Table, now: int, cfg: Settings, wifi: Wifi) {
    && wifi.present && Degraded(wifi.retries, cfg) && !InCooldown(t, STA, Wifi24Channel, now, cfg.cooldown)
    && !HasPending(t, STA, Wifi24Channel) && wifi.channel.Some?
  }

  function Wifi24Decision(t: Table, now: int, cfg: Settings, wifi: Wifi): Decision {
    if Wifi24Free(t, now, cfg, wifi)
    then FromPick(Optimizer.CyclePick(Plan.WIFI24_CHANNELS, wifi.channel.value, Failed(t, STA)))
    else Stay
  }

  /** The table after the INSERT a decision asks for. */
  function Carried(t: Table, now: int, d: Device, decision: Decision): Table {
    match decision
    case Move(c) => t + [Command(d, ParamOf(d), c, now, DefaultTtlSeconds(ParamOf(d)), Pending, 0)]
    case _ => t
  }

  function AfterWifi24(t: Table, now: int, cfg: Settings, wifi: Wifi): Table {
    if cfg.wifi24 then Carried(t, now, STA, Wifi24Decision(t, now, cfg, wifi)) else t
  }

  /** A raise ends the pass before the 2.4GHz radio is looked at. */
  function AfterPass(t: Table, now: int, cfg: Settings, link: Link, wifi: Wifi): Table {
    if !cfg.enabled then t
    else if !(cfg.cycling || cfg.bandwidthChanges) then AfterWifi24(t, now, cfg, wifi)
    else
      var halow := HalowDecision(t, now, cfg, link);
      if halow.Raise? then t else AfterWifi24(Carried(t, now, AP, halow), now, cfg, wifi)
  }

  // ---------- The job ----------

  class Job {
    var commands: Table

    constructor (t: Table)
      ensures commands == t
    {
      commands := t;
    }

    method Emit(now: int, d: Device, channel: int)
      modifies this
      ensures commands == Carried(old(commands), now, d, Move(channel))
    {
      commands := commands + [Command(d, ParamOf(d), channel, now, DefaultTtlSeconds(ParamOf(d)), Pending, 0)];
    }

    method EvaluateHalowLink(now: int, cfg: Settings, link: Link) returns (raised: bool)
      modifies this
      ensures commands == Carried(old(commands), now, AP, HalowDecision(old(commands), now, cfg, link))
      ensures raised <==> HalowDecision(old(commands), now, cfg, link) == Raise
    {
      raised := false;
      if !link.present || HasPending(commands, AP, HalowOperatingFreq) {
        return;
      }
      if link.channel.None? || link.bandwidth.None? {
        return;
      }
      var channel, bandwidth := link.channel.value, link.bandwidth.value;
      if InCooldown(commands, AP, HalowOperatingFreq, now, cfg.cooldown) {
        return;
      }
      var failed := Failed(commands, AP);
      if Degraded(link.retries, cfg) {
        if cfg.cycling {
          var next := Optimizer.CyclePick(Plan.ValidChannels(bandwidth), channel, failed);
          if next.Some? {
            Emit(now, AP, next.value);
          }
        }
        return;
      }
      if !cfg.bandwidthChanges {
        return;
      }
      if bandwidth != 8 && link.widenUse.Some? && link.widenUse.value >= cfg.widenThreshold {
        if bandwidth !in {1, 2, 4} {
          return true;
        }
        var wider := Optimizer.PickForBandwidth(2 * bandwidth, failed);
        if wider.Some? {
          Emit(now, AP, wider.value);
          return;
        }
      }
      if bandwidth != 1 && link.narrowUse.Some? && link.narrowUse.value <= cfg.narrowThreshold {
        if bandwidth !in {2, 4, 8} {
          return true;
        }
        var narrower := Optimizer.PickForBandwidth(bandwidth / 2, failed);
        if narrower.Some? {
          Emit(now, AP, narrower.value);
        }
      }
    }

    method EvaluateWifi24Link(now: int, cfg: Settings, wifi: Wifi)
      modifies this
      ensures commands == Carried(old(commands), now, STA, Wifi24Decision(old(commands), now, cfg, wifi))
    {
      if !wifi.present || !Degraded(wifi.retries, cfg) {
        return;
      }
      if InCooldown(commands, STA, Wifi24Channel, now, cfg.cooldown) || HasPending(commands, STA, Wifi24Channel) {
        return;
      }
      if wifi.channel.None? {
        return;
      }
      var next := Optimizer.CyclePick(Plan.WIFI24_CHANNELS, wifi.channel.value, Failed(commands, STA));
      if next.Some? {
        Emit(now, STA, next.value);
      }
    }

    method RunOptimizerPass(now: int, cfg: Settings, link: Link, wifi: Wifi)
      modifies this
      ensures commands == AfterPass(old(commands), now, cfg, link, wifi)
    {
      if !cfg.enabled {
        return;
      }
      if cfg.cycling || cfg.bandwidthChanges {
        var raised := EvaluateHalowLink(now, cfg, link);
        if raised {
          return;
        }
      }
      if cfg.wifi24 {
        EvaluateWifi24Link(now, cfg, wifi);
      }
    }
  }

  // ---------- What a pass may command ----------

  /** A channel of the bandwidth that has not failed. */
  predicate Open(t: Table, bandwidth: int) {
    exists c :: c in Plan.ValidChannels(bandwidth) && c !in Failed(t, AP)
  }

  lemma PickSucceedsExactlyWhenOpen(t: Table, bandwidth: int)
    ensures var pick := Optimizer.PickForBandwidth(bandwidth, Failed(t, AP));
      && (pick.Some? <==> Open(t, bandwidth))
      && (pick.Some? ==> Plan.IsValid(pick.value, bandwidth) && pick.value !in Failed(t, AP))
  {
  }

  /** A degraded link is cycled at its own bandwidth or left alone, never widened or narrowed; and it is
    * cycled exactly when cycling is on, nothing forbids a command and some channel there has not failed. */
  lemma DegradedLinkKeepsItsBandwidth(t: Table, now: int, cfg: Settings, link: Link)
    requires Degraded(link.retries, cfg) && link.bandwidth.Some?
    ensures var d := HalowDecision(t, now, cfg, link); var bandwidth := link.bandwidth.value;
      && !d.Raise?
      && (d.Move? <==> HalowFree(t, now, cfg, link) && cfg.cycling && Open(t, bandwidth))
      && (d.Move? ==> Plan.IsValid(d.channel, bandwidth) && d.channel !in Failed(t, AP))
      && (d.Move? && Plan.IsValid(link.channel.value, bandwidth) && d.channel == link.channel.value ==>
            forall c :: c in Plan.ValidChannels(bandwidth) && c != link.channel.value ==> c in Failed(t, AP))
  {
    if link.channel.Some? {
      var valid := Plan.ValidChannels(link.bandwidth.value);
      Optimizer.RotationSameChannels(valid, link.channel.value);
      Optimizer.CyclePickIsNearest(valid, link.channel.value, Failed(t, AP));
      Plan.ListsAreDistinct(link.bandwidth.value);
      if link.channel.value in valid {
        Optimizer.CurrentOnlyAsLastResort(valid, link.channel.value, Failed(t, AP));
      }
    }
  }

  predicate WantsWider(cfg: Settings, link: Link) {
    link.widenUse.Some? && link.widenUse.value >= cfg.widenThreshold
  }

  predicate WantsNarrower(cfg: Settings, link: Link) {
    link.narrowUse.Some? && link.narrowUse.value <= cfg.narrowThreshold
  }

  /** A link that is not degraded moves one bandwidth tier or stays. It widens exactly when its use over the
    * widen window calls for it and the next tier has a channel that has not failed; only otherwise can
    * it narrow, exactly when the use over the narrow window calls for it and the tier below has one. */
  lemma HealthyLinkMovesOneTier(t: Table, now: int, cfg: Settings, link: Link)
    requires !Degraded(link.retries, cfg) && HalowFree(t, now, cfg, link) && cfg.bandwidthChanges
    requires link.bandwidth.value in {1, 2, 4, 8}
    ensures var d := HalowDecision(t, now, cfg, link); var bandwidth := link.bandwidth.value;
      var widens := bandwidth < 8 && WantsWider(cfg, link) && Open(t, 2 * bandwidth);
      var narrows := bandwidth > 1 && WantsNarrower(cfg, link) && Open(t, bandwidth / 2);
      && !d.Raise? && (d.Move? <==> widens || narrows)
      && (widens ==> d.Move? && Plan.IsValid(d.channel, 2 * bandwidth))
      && (!widens && narrows ==> d.Move? && Plan.IsValid(d.channel, bandwidth / 2))
  {
    var bandwidth := link.bandwidth.value;
    PickSucceedsExactlyWhenOpen(t, 2 * bandwidth);
    PickSucceedsExactlyWhenOpen(t, bandwidth / 2);
  }

  /** A bandwidth outside the tiers ends the pass exactly when a use crosses its threshold. */
  lemma OddBandwidthRaisesExactlyWhen(t: Table, now: int, cfg: Settings, link: Link)
    requires HalowFree(t, now, cfg, link) && link.bandwidth.value !in {1, 2, 4, 8}
    ensures HalowDecision(t, now, cfg, link).Raise? <==>
      !Degraded(link.retries, cfg) && cfg.bandwidthChanges && (WantsWider(cfg, link) || WantsNarrower(cfg, link))
    ensures !HalowDecision(t, now, cfg, link).Move?
  {
    assert Plan.ValidChannels(link.bandwidth.value) == [];
  }

  /** A pass adds at most one command per device, to a device with none in flight and none younger than the
    * cooldown, for a channel that has never reverted there. */
  lemma PassIsCautious(t: Table, now: int, cfg: Settings, link: Link, wifi: Wifi)
    ensures var after := AfterPass(t, now, cfg, link, wifi);
      && |t| <= |after| <= |t| + 2 && after[..|t|] == t
      && (|after| == |t| + 2 ==> after[|t|].device == AP && after[|t| + 1].device == STA)
      && forall i :: |t| <= i < |after| ==>
        var c := after[i];
        && c.For(c.device, ParamOf(c.device)) && c.status == Pending && c.createdAt == now
        && c.channel !in Failed(t, c.device)
        && (forall j :: 0 <= j < |t| && t[j].For(c.device, c.param) ==>
              !t[j].InFlight() && now - t[j].createdAt >= cfg.cooldown)
  {
    var halow := HalowDecision(t, now, cfg, link);
    CooldownCoversEveryCommand(t, AP, HalowOperatingFreq, now, cfg.cooldown);
    CooldownCoversEveryCommand(t, STA, Wifi24Channel, now, cfg.cooldown);
    PickedNeverFailed(t, now, cfg, link);
    OtherDeviceUntouched(t, now, cfg, halow, wifi);
  }

  lemma PickedNeverFailed(t: Table, now: int, cfg: Settings, link: Link)
    ensures var d := HalowDecision(t, now, cfg, link); d.Move? ==> d.channel !in Failed(t, AP)
  {
  }

  lemma OtherKeyPending(t: Table, c: Command, d: Device, p: Param)
    requires !c.For(d, p)
    ensures HasPending(t + [c], d, p) == HasPending(t, d, p)
  {
    var after := t + [c];
    assert forall i :: 0 <= i < |t| ==> after[i] == t[i];
    if HasPending(t, d, p) {
      var i :| 0 <= i < |t| && t[i].For(d, p) && t[i].InFlight();
      assert after[i].For(d, p);
    }
  }

  lemma OtherKeyFailures(t: Table, c: Command, d: Device, p: Param)
    requires !c.For(d, p)
    ensures RevertedChannels(t + [c], d, p) == RevertedChannels(t, d, p)
  {
    var after := t + [c];
    assert forall i :: 0 <= i < |t| ==> after[i] == t[i];
  }

  lemma OtherKeyUntouched(t: Table, c: Command, d: Device, p: Param, now: int, cooldown: int)
    requires !c.For(d, p)
    ensures HasPending(t + [c], d, p) == HasPending(t, d, p)
    ensures InCooldown(t + [c], d, p, now, cooldown) == InCooldown(t, d, p, now, cooldown)
    ensures RevertedChannels(t + [c], d, p) == RevertedChannels(t, d, p)
  {
    OtherKeyPending(t, c, d, p);
    OtherKeyFailures(t, c, d, p);
    assert (t + [c])[..|t|] == t;
  }

  /** The 2.4GHz evaluation does not see a HaLow command just added. */
  lemma OtherDeviceUntouched(t: Table, now: int, cfg: Settings, halow: Decision, wifi: Wifi)
    ensures Wifi24Decision(Carried(t, now, AP, halow), now, cfg, wifi) == Wifi24Decision(t, now, cfg, wifi)
    ensures Failed(Carried(t, now, AP, halow), STA) == Failed(t, STA)
  {
    if halow.Move? {
      OtherKeyUntouched(t, Command(AP, HalowOperatingFreq, halow.channel, now, 120, Pending, 0), STA, Wifi24Channel,
                        now, cfg.cooldown);
    }
  }

  // ---------- The steps do the same ----------

  /** What the await of a step finds. */
  function Finds(task: OptimizerTask, link: Link, wifi: Wifi): Observation {
    match task
    case HalowStart(_) => Observation(link.present, None, None, None)
    case HalowNoPending(_) => Observation(true, link.channel, link.bandwidth, None)
    case HalowCooled(_, _, _) => Observation(true, None, None, link.retries)
    case HalowWiden(_, _, _) => Observation(true, None, None, link.widenUse)
    case HalowNarrow(_, _, _) => Observation(true, None, None, link.narrowUse)
    case Wifi24Start(_) => Observation(wifi.present, None, None, wifi.retries)
    case Wifi24NoPending(_) => Observation(true, wifi.channel, None, None)
    case _ => Observation(true, None, None, None)
  }

  /** How many steps are left at most. */
  function Rank(task: OptimizerTask): nat {
    match task
    case OptimizerIdle => 0
    case HalowStart(_) => 15
    case HalowNoPending(_) => 14
    case HalowCurrent(_, _, _) => 13
    case HalowCooled(_, _, _) => 12
    case HalowWiden(_, _, _) => 11
    case HalowNarrow(_, _, _) => 9
    case Wifi24Start(_) => 6
    case Wifi24Degraded(_) => 5
    case Wifi24Cooled(_) => 4
    case Wifi24NoPending(_) => 3
    case Choosing(_, device, purpose, _, _) => if device == STA then 2 else if purpose.Widen? then 10 else 8
    case Chosen(_, device, _) => if device == STA then 1 else 7
  }

  predicate WellFormed(task: OptimizerTask) {
    task.Choosing? && task.device == STA ==> task.purpose.Cycle?
  }

  lemma ChoiceLeft(task: OptimizerTask, pick: Option<int>)
    requires WellFormed(task) && task.Choosing?
    ensures WellFormed(Choose(task, pick)) && Rank(Choose(task, pick)) < Rank(task)
  {
  }

  predicate Closer(next: OptimizerTask, task: OptimizerTask) {
    WellFormed(next) && Rank(next) < Rank(task)
  }

  lemma OtherStepLeft(s: State, o: Observation)
    requires !s.optimizer.OptimizerIdle? && !s.optimizer.Choosing?
    ensures Closer(OptimizerNext(s, o).optimizer, s.optimizer)
  {
  }

  lemma StepsLeft(s: State, o: Observation)
    requires WellFormed(s.optimizer) && !s.optimizer.OptimizerIdle?
    ensures Closer(OptimizerNext(s, o).optimizer, s.optimizer)
  {
    if s.optimizer.Choosing? {
      var task := s.optimizer;
      var pick := Pick(s.commands, task.device,
                       Candidates(task.device, task.purpose, task.channel, task.bandwidth));
      NextIsChoice(s, o, Choose(task, pick));
      ChoiceLeft(task, pick);
    } else {
      OtherStepLeft(s, o);
    }
  }

  /** The optimizer's steps until its pass is over, and nothing else. */
  function Drive(s: State, link: Link, wifi: Wifi): State
    requires WellFormed(s.optimizer)
    decreases Rank(s.optimizer)
  {
    if s.optimizer.OptimizerIdle? then s
    else
      var o := Finds(s.optimizer, link, wifi);
      StepsLeft(s, o);
      Drive(OptimizerNext(s, o), link, wifi)
  }

  // What is still to be decided at each step of an evaluation.

  function WhenNarrowing(t: Table, cfg: Settings, bandwidth: int, link: Link): Decision {
    Narrow(Failed(t, AP), cfg, bandwidth, link.narrowUse)
  }

  function WhenWidening(t: Table, cfg: Settings, bandwidth: int, link: Link): Decision {
    var widened := Widen(Failed(t, AP), cfg, bandwidth, link.widenUse);
    if widened != Stay then widened else WhenNarrowing(t, cfg, bandwidth, link)
  }

  function WhenCooled(t: Table, cfg: Settings, channel: int, bandwidth: int, link: Link): Decision {
    if Degraded(link.retries, cfg) then
      if cfg.cycling then FromPick(Optimizer.CyclePick(Plan.ValidChannels(bandwidth), channel, Failed(t, AP))) else Stay
    else if !cfg.bandwidthChanges then Stay
    else WhenWidening(t, cfg, bandwidth, link)
  }

  function WhenChoosing(t: Table, cfg: Settings, purpose: Purpose, channel: int, bandwidth: int, link: Link): Decision {
    var decision := FromPick(Pick(t, AP, Candidates(AP, purpose, channel, bandwidth)));
    if purpose.Widen? && decision.Stay? then WhenNarrowing(t, cfg, bandwidth, link) else decision
  }

  function WhenCurrent(t: Table, now: int, cfg: Settings, channel: int, bandwidth: int, link: Link): Decision {
    if InCooldown(t, AP, HalowOperatingFreq, now, cfg.cooldown) then Stay
    else WhenCooled(t, cfg, channel, bandwidth, link)
  }

  function WhenNoPending(t: Table, now: int, cfg: Settings, link: Link): Decision {
    if link.channel.None? || link.bandwidth.None? then Stay
    else WhenCurrent(t, now, cfg, link.channel.value, link.bandwidth.value, link)
  }

  function WhenWifiNoPending(t: Table, wifi: Wifi): Decision {
    if wifi.channel.None? then Stay
    else FromPick(Optimizer.CyclePick(Plan.WIFI24_CHANNELS, wifi.channel.value, Failed(t, STA)))
  }

  function WhenWifiCooled(t: Table, wifi: Wifi): Decision {
    if HasPending(t, STA, Wifi24Channel) then Stay else WhenWifiNoPending(t, wifi)
  }

  function WhenWifiDegraded(t: Table, now: int, cfg: Settings, wifi: Wifi): Decision {
    if InCooldown(t, STA, Wifi24Channel, now, cfg.cooldown) then Stay else WhenWifiCooled(t, wifi)
  }

  function AfterDecision(t: Table, now: int, cfg: Settings, halow: Decision, wifi: Wifi): Table {
    if halow.Raise? then t else AfterWifi24(Carried(t, now, AP, halow), now, cfg, wifi)
  }

  /** The table a pass that stands at a step will leave. */
  function Outcome(s: State, link: Link, wifi: Wifi): Table {
    var t, now := s.commands, s.now;
    match s.optimizer
    case OptimizerIdle => t
    case HalowStart(cfg) => AfterDecision(t, now, cfg, HalowDecision(t, now, cfg, link), wifi)
    case HalowNoPending(cfg) => AfterDecision(t, now, cfg, WhenNoPending(t, now, cfg, link), wifi)
    case HalowCurrent(cfg, c, bw) => AfterDecision(t, now, cfg, WhenCurrent(t, now, cfg, c, bw, link), wifi)
    case HalowCooled(cfg, c, bw) => AfterDecision(t, now, cfg, WhenCooled(t, cfg, c, bw, link), wifi)
    case HalowWiden(cfg, c, bw) =>
      if bw == 8 then t else AfterDecision(t, now, cfg, WhenWidening(t, cfg, bw, link), wifi)
    case HalowNarrow(cfg, c, bw) =>
      if bw == 1 then t else AfterDecision(t, now, cfg, WhenNarrowing(t, cfg, bw, link), wifi)
    case Wifi24Start(cfg) => Carried(t, now, STA, Wifi24Decision(t, now, cfg, wifi))
    case Wifi24Degraded(cfg) => Carried(t, now, STA, WhenWifiDegraded(t, now, cfg, wifi))
    case Wifi24Cooled(cfg) => Carried(t, now, STA, WhenWifiCooled(t, wifi))
    case Wifi24NoPending(cfg) => Carried(t, now, STA, WhenWifiNoPending(t, wifi))
    case Choosing(cfg, AP, purpose, c, bw) =>
      AfterDecision(t, now, cfg, WhenChoosing(t, cfg, purpose, c, bw, link), wifi)
    case Choosing(cfg, STA, purpose, c, bw) =>
      Carried(t, now, STA, FromPick(Pick(t, STA, Candidates(STA, purpose, c, bw))))
    case Chosen(cfg, AP, target) => AfterDecision(t, now, cfg, Move(target), wifi)
    case Chosen(cfg, STA, target) => Carried(t, now, STA, Move(target))
  }

  /** Only tiers are widened and narrowed. */
  predicate Sound(task: OptimizerTask) {
    && (task.HalowWiden? ==> task.bandwidth != 8) && (task.HalowNarrow? ==> task.bandwidth != 1)
    && (task.Choosing? && task.device == STA ==> task.purpose.Cycle?)
    && (task.Choosing? && task.purpose.Widen? ==> task.bandwidth in {1, 2, 4})
    && (task.Choosing? && task.purpose.Narrow? ==> task.bandwidth in {2, 4, 8})
  }

  /** The next step leaves the outcome as it is, and everything but the optimizer's place. */
  predicate StepAgrees(s: State, link: Link, wifi: Wifi) {
    var next := OptimizerNext(s, Finds(s.optimizer, link, wifi));
    && Sound(next.optimizer) && next == s.(optimizer := next.optimizer)
    && Outcome(next, link, wifi) == Outcome(s, link, wifi)
  }

  lemma StartStepAgrees(s: State, link: Link, wifi: Wifi)
    requires s.optimizer.HalowStart?
    ensures StepAgrees(s, link, wifi)
  {
  }

  lemma NoPendingStepAgrees(s: State, link: Link, wifi: Wifi)
    requires s.optimizer.HalowNoPending?
    ensures StepAgrees(s, link, wifi)
  {
  }

  lemma CurrentStepAgrees(s: State, link: Link, wifi: Wifi)
    requires s.optimizer.HalowCurrent?
    ensures StepAgrees(s, link, wifi)
  {
  }

  lemma OutcomeWhenChoosing(s: State, link: Link, wifi: Wifi)
    requires s.optimizer.Choosing?
    ensures var task := s.optimizer;
      var decision := FromPick(Pick(s.commands, task.device,
                                    Candidates(task.device, task.purpose, task.channel, task.bandwidth)));
      Outcome(s, link, wifi) ==
        if task.device == STA then Carried(s.commands, s.now, STA, decision)
        else AfterDecision(s.commands, s.now, task.cfg,
               if task.purpose.Widen? && decision.Stay?
               then WhenNarrowing(s.commands, task.cfg, task.bandwidth, link) else decision, wifi)
  {
  }

  lemma CyclingPicks(t: Table, channel: int, bandwidth: int)
    ensures Pick(t, AP, Candidates(AP, Cycle, channel, bandwidth)) ==
            Optimizer.CyclePick(Plan.ValidChannels(bandwidth), channel, Failed(t, AP))
  {
  }

  lemma NothingToCycle(valid: seq<int>, channel: int, failed: set<int>)
    requires valid == []
    ensures Optimizer.CyclePick(valid, channel, failed) == None
  {
  }

  lemma CooledCyclingAgrees(s: State, link: Link, wifi: Wifi)
    requires s.optimizer.HalowCooled? && Degraded(link.retries, s.optimizer.cfg)
    requires s.optimizer.cfg.cycling && Plan.ValidChannels(s.optimizer.bandwidth) != []
    ensures StepAgrees(s, link, wifi)
  {
    var task := s.optimizer;
    CyclingPicks(s.commands, task.channel, task.bandwidth);
    OutcomeWhenChoosing(Goto(s, Choosing(task.cfg, AP, Cycle, task.channel, task.bandwidth)), link, wifi);
  }

  /** The HaLow evaluation ends without a command. */
  lemma OutcomeWhenDone(s: State, cfg: Settings, link: Link, wifi: Wifi)
    ensures Outcome(Goto(s, AfterHalow(cfg)), link, wifi) == AfterDecision(s.commands, s.now, cfg, Stay, wifi)
    ensures Sound(AfterHalow(cfg))
  {
  }

  lemma NotCyclingStays(t: Table, cfg: Settings, channel: int, bandwidth: int, link: Link)
    requires Degraded(link.retries, cfg) && (!cfg.cycling || Plan.ValidChannels(bandwidth) == [])
    ensures WhenCooled(t, cfg, channel, bandwidth, link) == Stay
  {
    if cfg.cycling {
      NothingToCycle(Plan.ValidChannels(bandwidth), channel, Failed(t, AP));
    }
  }

  lemma CooledNotCyclingAgrees(s: State, link: Link, wifi: Wifi)
    requires s.optimizer.HalowCooled? && Degraded(link.retries, s.optimizer.cfg)
    requires !s.optimizer.cfg.cycling || Plan.ValidChannels(s.optimizer.bandwidth) == []
    ensures StepAgrees(s, link, wifi)
  {
    var task := s.optimizer;
    NotCyclingStays(s.commands, task.cfg, task.channel, task.bandwidth, link);
    OutcomeWhenDone(s, task.cfg, link, wifi);
    assert OptimizerNext(s, Finds(task, link, wifi)) == Goto(s, AfterHalow(task.cfg));
  }

  lemma CooledHealthyAgrees(s: State, link: Link, wifi: Wifi)
    requires s.optimizer.HalowCooled? && !Degraded(link.retries, s.optimizer.cfg)
    ensures StepAgrees(s, link, wifi)
  {
  }

  /** What follows when a link is not widened. */
  lemma OutcomeWhenNarrowing(s: State, cfg: Settings, channel: int, bandwidth: int, link: Link, wifi: Wifi)
    ensures Sound(NarrowOrDone(cfg, channel, bandwidth))
    ensures Outcome(Goto(s, NarrowOrDone(cfg, channel, bandwidth)), link, wifi) ==
      AfterDecision(s.commands, s.now, cfg, WhenNarrowing(s.commands, cfg, bandwidth, link), wifi)
  {
    if bandwidth == 1 {
      OutcomeWhenDone(s, cfg, link, wifi);
    }
  }

  lemma WidenStepAgrees(s: State, link: Link, wifi: Wifi)
    requires Sound(s.optimizer) && s.optimizer.HalowWiden?
    ensures StepAgrees(s, link, wifi)
  {
    var task := s.optimizer;
    if link.widenUse.None? || link.widenUse.value < task.cfg.widenThreshold {
      OutcomeWhenNarrowing(s, task.cfg, task.channel, task.bandwidth, link, wifi);
      assert OptimizerNext(s, Finds(task, link, wifi)) == Goto(s, NarrowOrDone(task.cfg, task.channel, task.bandwidth));
    } else if task.bandwidth in {1, 2, 4} {
      OutcomeWhenChoosing(Goto(s, Choosing(task.cfg, AP, Purpose.Widen, task.channel, task.bandwidth)), link, wifi);
    }
  }

  lemma NarrowStepAgrees(s: State, link: Link, wifi: Wifi)
    requires Sound(s.optimizer) && s.optimizer.HalowNarrow?
    ensures StepAgrees(s, link, wifi)
  {
    var task := s.optimizer;
    if link.narrowUse.None? || link.narrowUse.value > task.cfg.narrowThreshold {
      OutcomeWhenDone(s, task.cfg, link, wifi);
      assert OptimizerNext(s, Finds(task, link, wifi)) == Goto(s, AfterHalow(task.cfg));
    } else if task.bandwidth in {2, 4, 8} {
      OutcomeWhenChoosing(Goto(s, Choosing(task.cfg, AP, Purpose.Narrow, task.channel, task.bandwidth)), link, wifi);
    }
  }

  lemma WifiStartAgrees(s: State, link: Link, wifi: Wifi)
    requires s.optimizer.Wifi24Start?
    ensures StepAgrees(s, link, wifi)
  {
  }

  lemma WifiGuardAgrees(s: State, link: Link, wifi: Wifi)
    requires s.optimizer.Wifi24Degraded? || s.optimizer.Wifi24Cooled?
    ensures StepAgrees(s, link, wifi)
  {
  }

  lemma WifiPickAgrees(s: State, link: Link, wifi: Wifi)
    requires s.optimizer.Wifi24NoPending?
    ensures StepAgrees(s, link, wifi)
  {
  }

  /** A choice for the AP, whatever the pick. */
  lemma ChoiceAgrees(s: State, task: OptimizerTask, pick: Option<int>, link: Link, wifi: Wifi)
    requires task.Choosing? && Sound(task) && task.device == AP
    ensures var next := Goto(s, Choose(task, pick));
      var decision := FromPick(pick);
      && Sound(next.optimizer)
      && Outcome(next, link, wifi) ==
           AfterDecision(s.commands, s.now, task.cfg,
             if task.purpose.Widen? && decision.Stay?
             then WhenNarrowing(s.commands, task.cfg, task.bandwidth, link) else decision, wifi)
  {
  }

  lemma WifiChoiceAgrees(s: State, task: OptimizerTask, pick: Option<int>, link: Link, wifi: Wifi)
    requires task.Choosing? && Sound(task) && task.device == STA
    ensures var next := Goto(s, Choose(task, pick));
      Sound(next.optimizer) && Outcome(next, link, wifi) == Carried(s.commands, s.now, STA, FromPick(pick))
  {
  }

  lemma ChoosingStepAgrees(s: State, link: Link, wifi: Wifi)
    requires Sound(s.optimizer) && s.optimizer.Choosing?
    ensures StepAgrees(s, link, wifi)
  {
    var task := s.optimizer;
    var candidates := Candidates(task.device, task.purpose, task.channel, task.bandwidth);
    var pick := Pick(s.commands, task.device, candidates);
    NextIsChoice(s, Finds(task, link, wifi), Choose(task, pick));
    OutcomeWhenChoosing(s, link, wifi);
    if task.device == AP {
      ChoiceAgrees(s, task, pick, link, wifi);
    } else {
      WifiChoiceAgrees(s, task, pick, link, wifi);
    }
  }

  lemma ChosenStepAgrees(s: State, link: Link, wifi: Wifi)
    requires s.optimizer.Chosen?
    ensures var next := OptimizerNext(s, Finds(s.optimizer, link, wifi));
      Sound(next.optimizer) && next == s.(optimizer := next.optimizer, commands := next.commands) &&
      Outcome(next, link, wifi) == Outcome(s, link, wifi)
  {
  }

  lemma GuardStepAgrees(s: State, link: Link, wifi: Wifi)
    requires Rank(s.optimizer) > 12 || 2 < Rank(s.optimizer) <= 6
    ensures StepAgrees(s, link, wifi)
  {
    match s.optimizer
    case HalowStart(_) => StartStepAgrees(s, link, wifi);
    case HalowNoPending(_) => NoPendingStepAgrees(s, link, wifi);
    case HalowCurrent(_, _, _) => CurrentStepAgrees(s, link, wifi);
    case Wifi24Start(_) => WifiStartAgrees(s, link, wifi);
    case Wifi24NoPending(_) => WifiPickAgrees(s, link, wifi);
    case _ => WifiGuardAgrees(s, link, wifi);
  }

  lemma {:induction false} DriveReachesOutcome(s: State, link: Link, wifi: Wifi)
    requires Sound(s.optimizer)
    ensures Drive(s, link, wifi) == s.(optimizer := OptimizerIdle, commands := Outcome(s, link, wifi))
    decreases Rank(s.optimizer)
  {
    if !s.optimizer.OptimizerIdle? {
      var next := OptimizerNext(s, Finds(s.optimizer, link, wifi));
      StepsLeft(s, Finds(s.optimizer, link, wifi));
      if s.optimizer.Chosen? {
        ChosenStepAgrees(s, link, wifi);
      } else if s.optimizer.Choosing? {
        ChoosingStepAgrees(s, link, wifi);
      } else if s.optimizer.HalowCooled? {
        if !Degraded(link.retries, s.optimizer.cfg) {
          CooledHealthyAgrees(s, link, wifi);
        } else if s.optimizer.cfg.cycling && Plan.ValidChannels(s.optimizer.bandwidth) != [] {
          CooledCyclingAgrees(s, link, wifi);
        } else {
          CooledNotCyclingAgrees(s, link, wifi);
        }
      } else if s.optimizer.HalowWiden? {
        WidenStepAgrees(s, link, wifi);
      } else if s.optimizer.HalowNarrow? {
        NarrowStepAgrees(s, link, wifi);
      } else {
        GuardStepAgrees(s, link, wifi);
      }
      DriveReachesOutcome(next, link, wifi);
    }
  }

  /** Run to its end without interruption, the step-by-step optimizer leaves exactly the table of the
    * pass above, and nothing else changed. */
  lemma StepsRefinePass(s: State, cfg: Settings, link: Link, wifi: Wifi)
    requires s.optimizer.OptimizerIdle?
    ensures WellFormed(OptimizerBegin(s, cfg).optimizer)
    ensures Drive(OptimizerBegin(s, cfg), link, wifi) ==
      s.(commands := AfterPass(s.commands, s.now, cfg, link, wifi))
  {
    DriveReachesOutcome(OptimizerBegin(s, cfg), link, wifi);
  }
}
