/** Exactly what an optimizer pass commands, told by the rows of the commands table, the readings and the settings
  * (app/optimizer.py, _evaluate_halow_link, _evaluate_wifi24_link and run_optimizer_pass). */
module OptimizerTargets {
  import opened Wrappers
  import opened CommandTable
  import opened CommandProtocol
  import opened OptimizerPass
  import Optimizer
  import Plan = HalowChannelPlan

  /** A row of the device and parameter for this channel has ended as reverted. */
  predicate HasReverted(t: Table, d: Device, p: Param, channel: int) {
    exists i ::
      0 <= i < |t| && t[i].device == d && t[i].param == p && t[i].status == Reverted && t[i].channel == channel
  }

  /** Acked, unknown and in-flight rows rule no channel out. */
  lemma OnlyRevertedRowsCount(t: Table, d: Device, p: Param, channel: int)
    ensures channel in RevertedChannels(t, d, p) <==> HasReverted(t, d, p, channel)
  {
  }

  /** c is the first channel of the list that never reverted. */
  ghost predicate IsFirst(t: Table, d: Device, p: Param, list: seq<int>, c: int) {
    exists k :: 0 <= k < |list| && FirstAt(t, d, p, list, c, k)
  }

  ghost predicate FirstAt(t: Table, d: Device, p: Param, list: seq<int>, c: int, k: nat)
    requires k < |list|
  {
    list[k] == c && !HasReverted(t, d, p, c) && forall j :: 0 <= j < k ==> HasReverted(t, d, p, list[j])
  }

  lemma FirstAllowedExactly(t: Table, d: Device, p: Param, list: seq<int>, c: int)
    ensures Optimizer.FirstAllowed(list, RevertedChannels(t, d, p)) == Some(c) <==> IsFirst(t, d, p, list, c)
  {
    var failed := RevertedChannels(t, d, p);
    if Optimizer.FirstAllowed(list, failed) == Some(c) {
      var k := Optimizer.FirstAllowedPlace(list, failed);
      OnlyRevertedRowsCount(t, d, p, c);
      forall j | 0 <= j < k ensures HasReverted(t, d, p, list[j]) {
        OnlyRevertedRowsCount(t, d, p, list[j]);
      }
      assert FirstAt(t, d, p, list, c, k);
    }
    if IsFirst(t, d, p, list, c) {
      var k :| 0 <= k < |list| && FirstAt(t, d, p, list, c, k);
      OnlyRevertedRowsCount(t, d, p, c);
      forall j | 0 <= j < k ensures list[j] in failed {
        OnlyRevertedRowsCount(t, d, p, list[j]);
      }
      Optimizer.FirstAllowedIsFirst(list, failed, k);
    }
  }

  /** The channels of the list in the order of the walk round it that starts after the current one. */
  function Round(list: seq<int>, current: int): seq<int> {
    seq(|list|, k requires 0 <= k < |list| => list[(Optimizer.IndexOf(list, current) + (k + 1)) % |list|])
  }

  lemma CyclePickExactly(t: Table, d: Device, p: Param, list: seq<int>, current: int, c: int)
    ensures Optimizer.CyclePick(list, current, RevertedChannels(t, d, p)) == Some(c) <==>
            IsFirst(t, d, p, Round(list, current), c)
  {
    forall k | 0 <= k < |list| ensures Round(list, current)[k] == Optimizer.Rotation(list, current)[k] {
      Optimizer.RotationWalksModulo(list, current, k);
    }
    assert Round(list, current) == Optimizer.Rotation(list, current);
    FirstAllowedExactly(t, d, p, Round(list, current), c);
  }

  /** No row of the device and parameter is in flight or younger than the cooldown. */
  predicate AtRest(t: Table, d: Device, p: Param, now: int, cooldown: int) {
    forall i :: 0 <= i < |t| && t[i].device == d && t[i].param == p ==>
      t[i].status != Pending && t[i].status != Applied && now - t[i].createdAt >= cooldown
  }

  lemma AtRestExactly(t: Table, d: Device, p: Param, now: int, cooldown: int)
    ensures AtRest(t, d, p, now, cooldown) <==> !HasPending(t, d, p) && !InCooldown(t, d, p, now, cooldown)
  {
    CooldownCoversEveryCommand(t, d, p, now, cooldown);
    if !AtRest(t, d, p, now, cooldown) {
      var i :| 0 <= i < |t| && t[i].device == d && t[i].param == p &&
               !(t[i].status != Pending && t[i].status != Applied && now - t[i].createdAt >= cooldown);
      assert t[i].For(d, p);
    }
  }

  /** The average, if there is one, reaches the threshold. */
  predicate Bad(average: Option<real>, threshold: real) {
    average.Some? && average.value >= threshold
  }

  /** The use calls for twice the bandwidth, and c is the first channel there that never reverted. */
  ghost predicate WidensTo(t: Table, cfg: Settings, bandwidth: int, use: Option<real>, c: int) {
    && bandwidth in {1, 2, 4} && use.Some? && use.value >= cfg.widenThreshold
    && IsFirst(t, AP, HalowOperatingFreq, Plan.ValidChannels(2 * bandwidth), c)
  }

  ghost predicate Widens(t: Table, cfg: Settings, bandwidth: int, use: Option<real>) {
    exists c :: WidensTo(t, cfg, bandwidth, use, c)
  }

  ghost predicate NarrowsTo(t: Table, cfg: Settings, bandwidth: int, use: Option<real>, c: int) {
    && bandwidth in {2, 4, 8} && use.Some? && use.value <= cfg.narrowThreshold
    && IsFirst(t, AP, HalowOperatingFreq, Plan.ValidChannels(bandwidth / 2), c)
  }

  lemma WidenExactly(t: Table, cfg: Settings, bandwidth: int, use: Option<real>, c: int)
    ensures var w := OptimizerPass.Widen(Failed(t, AP), cfg, bandwidth, use);
      && (w == Move(c) <==> WidensTo(t, cfg, bandwidth, use, c)) && (w.Move? <==> Widens(t, cfg, bandwidth, use))
      && (w.Raise? ==> bandwidth !in {1, 2, 4, 8})
  {
    var wider := Plan.ValidChannels(2 * bandwidth);
    forall x ensures Optimizer.FirstAllowed(wider, Failed(t, AP)) == Some(x) <==>
                     IsFirst(t, AP, HalowOperatingFreq, wider, x)
    {
      FirstAllowedExactly(t, AP, HalowOperatingFreq, wider, x);
    }
    var w := OptimizerPass.Widen(Failed(t, AP), cfg, bandwidth, use);
    if w.Move? {
      assert WidensTo(t, cfg, bandwidth, use, w.channel);
    }
  }

  lemma NarrowExactly(t: Table, cfg: Settings, bandwidth: int, use: Option<real>, c: int)
    ensures OptimizerPass.Narrow(Failed(t, AP), cfg, bandwidth, use) == Move(c) <==>
            NarrowsTo(t, cfg, bandwidth, use, c)
  {
    FirstAllowedExactly(t, AP, HalowOperatingFreq, Plan.ValidChannels(bandwidth / 2), c);
  }

  /** Where a degraded link goes: the first channel round from the current one that never reverted. */
  ghost predicate CyclesTo(t: Table, bandwidth: int, channel: int, c: int) {
    IsFirst(t, AP, HalowOperatingFreq, Round(Plan.ValidChannels(bandwidth), channel), c)
  }

  /** Where a healthy one goes: the next wider tier, or, if that is not called for or has no channel, the next
    * narrower one. */
  ghost predicate ResizesTo(t: Table, cfg: Settings, bandwidth: int, link: Link, c: int) {
    || WidensTo(t, cfg, bandwidth, link.widenUse, c)
    || (!Widens(t, cfg, bandwidth, link.widenUse) && NarrowsTo(t, cfg, bandwidth, link.narrowUse, c))
  }

  /** Where an evaluation goes that nothing forbids. */
  ghost predicate GoesTo(t: Table, cfg: Settings, link: Link, bandwidth: int, channel: int, c: int) {
    if Bad(link.retries, cfg.retryThreshold) then cfg.cycling && CyclesTo(t, bandwidth, channel, c)
    else cfg.bandwidthChanges && ResizesTo(t, cfg, bandwidth, link, c)
  }

  /** A HaLow evaluation commands channel c if and only if nothing forbids a command and c is where a degraded or a
    * healthy link is to go. */
  lemma HalowMovesExactlyTo(t: Table, now: int, cfg: Settings, link: Link, c: int)
    ensures HalowDecision(t, now, cfg, link) == Move(c) <==>
      && link.present && link.channel.Some? && link.bandwidth.Some?
      && AtRest(t, AP, HalowOperatingFreq, now, cfg.cooldown)
      && GoesTo(t, cfg, link, link.bandwidth.value, link.channel.value, c)
  {
    AtRestExactly(t, AP, HalowOperatingFreq, now, cfg.cooldown);
    if HalowFree(t, now, cfg, link) {
      FreeMovesExactlyTo(t, now, cfg, link, c);
    }
  }

  lemma FreeMovesExactlyTo(t: Table, now: int, cfg: Settings, link: Link, c: int)
    requires HalowFree(t, now, cfg, link)
    ensures HalowDecision(t, now, cfg, link) == Move(c) <==>
            GoesTo(t, cfg, link, link.bandwidth.value, link.channel.value, c)
  {
    var cycled, resized := Options(t, now, cfg, link, c);
    assert HalowDecision(t, now, cfg, link) == Chosen(cfg, link, cycled, resized);
  }

  function Chosen(cfg: Settings, link: Link, cycled: Decision, resized: Decision): Decision {
    if Bad(link.retries, cfg.retryThreshold) then (if cfg.cycling then cycled else Stay)
    else if cfg.bandwidthChanges then resized else Stay
  }

  /** What the evaluation chooses between. */
  lemma Options(t: Table, now: int, cfg: Settings, link: Link, c: int) returns (cycled: Decision, resized: Decision)
    requires HalowFree(t, now, cfg, link)
    ensures HalowDecision(t, now, cfg, link) == Chosen(cfg, link, cycled, resized)
    ensures cycled == Move(c) <==> CyclesTo(t, link.bandwidth.value, link.channel.value, c)
    ensures resized == Move(c) <==> ResizesTo(t, cfg, link.bandwidth.value, link, c)
  {
    var bandwidth := link.bandwidth.value;
    cycled := RoundRobin(Failed(t, AP), bandwidth, link.channel.value);
    CycleExactly(t, bandwidth, link.channel.value, c);
    resized := Resized(t, cfg, bandwidth, link);
    ResizeExactly(t, cfg, bandwidth, link, c);
    FreeDecision(t, now, cfg, link, cycled, resized);
  }

  function Resized(t: Table, cfg: Settings, bandwidth: int, link: Link): Decision {
    var widened := OptimizerPass.Widen(Failed(t, AP), cfg, bandwidth, link.widenUse);
    if widened != Stay then widened else OptimizerPass.Narrow(Failed(t, AP), cfg, bandwidth, link.narrowUse)
  }

  lemma ResizeExactly(t: Table, cfg: Settings, bandwidth: int, link: Link, c: int)
    ensures Resized(t, cfg, bandwidth, link) == Move(c) <==> ResizesTo(t, cfg, bandwidth, link, c)
  {
    WidenExactly(t, cfg, bandwidth, link.widenUse, c);
    NarrowExactly(t, cfg, bandwidth, link.narrowUse, c);
    WiderFirst(OptimizerPass.Widen(Failed(t, AP), cfg, bandwidth, link.widenUse),
               OptimizerPass.Narrow(Failed(t, AP), cfg, bandwidth, link.narrowUse), c,
               WidensTo(t, cfg, bandwidth, link.widenUse, c), Widens(t, cfg, bandwidth, link.widenUse),
               NarrowsTo(t, cfg, bandwidth, link.narrowUse, c));
  }

  lemma WiderFirst(widened: Decision, narrowed: Decision, c: int, wider: bool, some: bool, narrower: bool)
    requires (widened == Move(c) <==> wider) && (widened.Move? <==> some) && (narrowed == Move(c) <==> narrower)
    requires widened.Raise? ==> !narrower
    ensures (if widened != Stay then widened else narrowed) == Move(c) <==> wider || (!some && narrower)
  {
  }

  function RoundRobin(failed: set<int>, bandwidth: int, channel: int): Decision {
    FromPick(Optimizer.CyclePick(Plan.ValidChannels(bandwidth), channel, failed))
  }

  lemma CycleExactly(t: Table, bandwidth: int, channel: int, c: int)
    ensures RoundRobin(Failed(t, AP), bandwidth, channel) == Move(c) <==> CyclesTo(t, bandwidth, channel, c)
  {
    CyclePickExactly(t, AP, HalowOperatingFreq, Plan.ValidChannels(bandwidth), channel, c);
  }

  lemma FreeDecision(t: Table, now: int, cfg: Settings, link: Link, cycled: Decision, resized: Decision)
    requires HalowFree(t, now, cfg, link)
    requires cycled == RoundRobin(Failed(t, AP), link.bandwidth.value, link.channel.value)
    requires resized == Resized(t, cfg, link.bandwidth.value, link)
    ensures HalowDecision(t, now, cfg, link) == Chosen(cfg, link, cycled, resized)
  {
  }

  /** The 2.4GHz evaluation commands channel c if and only if the radio is degraded, nothing forbids a command, and c is
    * the first channel round from the current one that never reverted there. */
  lemma WifiMovesExactlyTo(t: Table, now: int, cfg: Settings, wifi: Wifi, c: int)
    ensures Wifi24Decision(t, now, cfg, wifi) == Move(c) <==>
      && wifi.present && wifi.channel.Some? && Bad(wifi.retries, cfg.retryThreshold)
      && AtRest(t, STA, Wifi24Channel, now, cfg.cooldown)
      && IsFirst(t, STA, Wifi24Channel, Round(Plan.WIFI24_CHANNELS, wifi.channel.value), c)
  {
    AtRestExactly(t, STA, Wifi24Channel, now, cfg.cooldown);
    if wifi.channel.Some? {
      CyclePickExactly(t, STA, Wifi24Channel, Plan.WIFI24_CHANNELS, wifi.channel.value, c);
    }
  }

  /** Exactly what a pass inserts: unless it is switched off, the HaLow command if one of its toggles is on, then the
    * 2.4GHz command if its toggle is on and the HaLow evaluation has not raised. */
  lemma PassInsertsExactly(t: Table, now: int, cfg: Settings, link: Link, wifi: Wifi)
    ensures var halowOn := cfg.enabled && (cfg.cycling || cfg.bandwidthChanges);
      var halow, wifi24 := HalowDecision(t, now, cfg, link), Wifi24Decision(t, now, cfg, wifi);
      AfterPass(t, now, cfg, link, wifi) == t +
        (if halowOn && halow.Move?
         then [Command(AP, HalowOperatingFreq, halow.channel, now, 120, Pending, 0)] else []) +
        (if cfg.enabled && cfg.wifi24 && !(halowOn && halow.Raise?) && wifi24.Move?
         then [Command(STA, Wifi24Channel, wifi24.channel, now, 90, Pending, 0)] else [])
  {
    OtherDeviceUntouched(t, now, cfg, HalowDecision(t, now, cfg, link), wifi);
  }
}
