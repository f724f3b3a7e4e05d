/** Safe apply over every run of the command protocol: what a device can be left on for good. */
module SafeApplyRuns {
  import opened Wrappers
  import opened CommandTable
  import opened CommandProtocol
  import opened CommandInvariants
  import opened CommandTheorems
  import SafeApply
  import Optimizer
  import Plan = HalowChannelPlan

  // ---------- Sightings and cut windows ----------

  /** The check job's next await runs verify-confirm for an applied command of the device for `channel`,
    * its verify delay over. */
  predicate Verifies(s: State, d: Device, channel: int) {
    && s.check.CheckRows? && s.check.rows != [] && s.check.rows[0] < |s.commands|
    && var c := s.commands[s.check.rows[0]];
      && c.For(d, ParamOf(d)) && c.channel == channel && c.status == Applied
      && s.check.at - c.appliedAt >= s.check.delay * SECOND
  }

  /** A verify-confirm of the device that finds its target `channel` live (on HaLow: with a peer) while
    * the timer armed for exactly that channel is still running. */
  predicate Sighting(s: State, a: Action, d: Device, channel: int) {
    && Verifies(s, d, channel)
    && a.CheckStep? && a.checkMove.Verify? && a.checkMove.ran && a.checkMove.live == Some(channel)
    && (d == AP ==> a.checkMove.peer)
    && s.Agent(d).rollback.Armed? && s.Agent(d).committed == channel
  }

  predicate Reboots(s: State, a: Action, d: Device) {
    || a == PowerCycles(d)
    || (a == ApplyStep(StartCall(true)) && s.apply.ApplyRows? && s.apply.rows != [] &&
        s.apply.rows[0] < |s.apply.snap| && s.apply.snap[s.apply.rows[0]].For(d, Reboot))
  }

  /** The device reboots while its rollback timer is running. */
  predicate CutsWindow(s: State, a: Action, d: Device) {
    Reboots(s, a, d) && s.Agent(d).rollback.Armed?
  }

  // ---------- One step ----------

  /** How one step can change what a device has on record. */
  ghost predicate RecordsHonestly(s: State, a: Action, d: Device) {
    HonestChange(s, a, d, s.Agent(d), Step(s, a).Agent(d))
  }

  ghost predicate HonestChange(s: State, a: Action, d: Device, before: SafeApply.Agent, after: SafeApply.Agent) {
    && after.initial == before.initial
    && before.verified <= after.verified
    && (forall c :: c in after.verified && c !in before.verified ==> Sighting(s, a, d, c))
    && (after.stranded != before.stranded ==> CutsWindow(s, a, d))
  }

  lemma ApplyRecords(s: State, m: ApplyMove, d: Device)
    requires ApplyInv(s.commands, s.apply)
    ensures HonestChange(s, ApplyStep(m), d, s.Agent(d), ApplyNext(s, m).Agent(d))
  {
    if ApplyBusy(s) {
      assert s.apply.snap[s.apply.rows[0]] == s.commands[s.apply.rows[0]];
    }
  }

  lemma CheckRecords(s: State, m: CheckMove, d: Device)
    requires Inv(s)
    ensures RecordsHonestly(s, CheckStep(m), d)
  {
    if CheckBusy(s) {
      var c := s.commands[s.check.rows[0]];
      assert s.check.snap[s.check.rows[0]] == c;
      assert Moves(c, c.device);
    }
  }

  lemma OptimizerLeavesAgents(s: State, o: Observation)
    ensures OptimizerNext(s, o).ap == s.ap && OptimizerNext(s, o).sta == s.sta
  {
  }

  lemma StepRecords(s: State, a: Action, d: Device)
    requires Inv(s)
    ensures RecordsHonestly(s, a, d)
  {
    match a
    case ApplyStep(m) => ApplyRecords(s, m, d);
    case CheckStep(m) => CheckRecords(s, m, d);
    case OptimizerStep(o) => OptimizerLeavesAgents(s, o);
    case _ =>
  }

  // ---------- Every run ----------

  ghost predicate SeenDuring(s: State, actions: seq<Action>, d: Device, channel: int) {
    exists k :: 0 <= k < |actions| && Sighting(Run(s, actions[..k]), actions[k], d, channel)
  }

  ghost predicate NoWindowCut(s: State, actions: seq<Action>, d: Device) {
    forall k :: 0 <= k < |actions| ==> !CutsWindow(Run(s, actions[..k]), actions[k], d)
  }

  lemma PrefixAfterStep(s: State, actions: seq<Action>, k: nat)
    requires k < |actions|
    ensures Run(s, actions[..k + 1]) == Run(Step(s, actions[0]), actions[1..][..k])
    ensures actions[..0] == []
  {
    assert actions[..k + 1][0] == actions[0];
    assert actions[..k + 1][1..] == actions[1..][..k];
  }

  lemma {:induction false} VerifiedWasSeen(s: State, actions: seq<Action>, d: Device, channel: int)
    requires Inv(s) && channel in Run(s, actions).Agent(d).verified
    ensures channel in s.Agent(d).verified || SeenDuring(s, actions, d, channel)
    decreases |actions|
  {
    if actions != [] {
      var s' := Step(s, actions[0]);
      StepKeepsInv(s, actions[0]);
      StepRecords(s, actions[0], d);
      assert actions[..0] == [];
      if channel !in s'.Agent(d).verified {
        VerifiedWasSeen(s', actions[1..], d, channel);
        var k :| 0 <= k < |actions[1..]| && Sighting(Run(s', actions[1..][..k]), actions[1..][k], d, channel);
        PrefixAfterStep(s, actions, k);
        assert Sighting(Run(s, actions[..k + 1]), actions[k + 1], d, channel);
      } else if channel !in s.Agent(d).verified {
        assert Sighting(Run(s, actions[..0]), actions[0], d, channel);
      }
    }
  }

  lemma {:induction false} NothingStranded(s: State, actions: seq<Action>, d: Device)
    requires Inv(s) && NoWindowCut(s, actions, d)
    ensures Run(s, actions).Agent(d).stranded == s.Agent(d).stranded
    ensures Run(s, actions).Agent(d).initial == s.Agent(d).initial
    decreases |actions|
  {
    if actions != [] {
      var s' := Step(s, actions[0]);
      StepKeepsInv(s, actions[0]);
      StepRecords(s, actions[0], d);
      assert actions[..0] == [];
      assert !CutsWindow(Run(s, actions[..0]), actions[0], d);
      forall k | 0 <= k < |actions[1..]| ensures !CutsWindow(Run(s', actions[1..][..k]), actions[1..][k], d) {
        PrefixAfterStep(s, actions, k);
        assert !CutsWindow(Run(s, actions[..k + 1]), actions[k + 1], d);
      }
      NothingStranded(s', actions[1..], d);
    }
  }

  // ---------- Exactly when the guarantee is lost ----------

  /** The device sits, with nothing left to revert it, on a channel nobody has vouched for. */
  predicate OnUntrusted(s: State, d: Device) {
    s.Agent(d).rollback.Unarmed? && s.Agent(d).committed !in SafeApply.Trusted(s.Agent(d))
  }

  /** The device reboots while its timer runs, and the channel it was trying is not a trusted one. */
  predicate CutsUntrusted(s: State, a: Action, d: Device) {
    CutsWindow(s, a, d) && s.Agent(d).committed !in SafeApply.Trusted(s.Agent(d))
  }

  lemma RebootPowerCycles(s: State, a: Action, d: Device)
    requires Inv(s) && Reboots(s, a, d)
    ensures Step(s, a).Agent(d) == SafeApply.PowerCycle(s.Agent(d))
  {
    if a.ApplyStep? {
      assert s.apply.snap[s.apply.rows[0]] == s.commands[s.apply.rows[0]];
    }
  }

  /** Whatever power cycles have made permanent on the device is trusted all the same. */
  predicate NothingLost(s: State, d: Device) {
    s.Agent(d).stranded <= SafeApply.Trusted(s.Agent(d))
  }

  /** Where nothing has been lost, one step loses the guarantee exactly when it reboots the device inside an
    * armed window whose target is not already a trusted channel; any other step loses nothing. */
  lemma GuaranteeLostExactlyByRebootInWindow(s: State, a: Action, d: Device)
    requires Inv(s) && NothingLost(s, d)
    ensures OnUntrusted(Step(s, a), d) <==> CutsUntrusted(s, a, d)
    ensures NothingLost(Step(s, a), d) <==> !CutsUntrusted(s, a, d)
  {
    StepKeepsInv(s, a);
    StepRecords(s, a, d);
    if CutsWindow(s, a, d) {
      RebootPowerCycles(s, a, d);
    }
  }

  ghost predicate NeverOnUntrusted(s: State, actions: seq<Action>, d: Device) {
    forall k :: 0 <= k <= |actions| ==> !OnUntrusted(Run(s, actions[..k]), d)
  }

  ghost predicate NoUntrustedCut(s: State, actions: seq<Action>, d: Device) {
    forall k :: 0 <= k < |actions| ==> !CutsUntrusted(Run(s, actions[..k]), actions[k], d)
  }

  lemma NeverOnUntrustedCons(s: State, actions: seq<Action>, d: Device)
    requires actions != []
    ensures NeverOnUntrusted(s, actions, d) <==>
      !OnUntrusted(s, d) && NeverOnUntrusted(Step(s, actions[0]), actions[1..], d)
  {
    var s', rest := Step(s, actions[0]), actions[1..];
    assert Run(s, actions[..0]) == s;
    forall k | 0 <= k <= |rest| ensures Run(s, actions[..k + 1]) == Run(s', rest[..k]) {
      PrefixAfterStep(s, actions, k);
    }
    if !OnUntrusted(s, d) && NeverOnUntrusted(s', rest, d) {
      forall k | 0 <= k <= |actions| ensures !OnUntrusted(Run(s, actions[..k]), d) {
        if k > 0 {
          assert !OnUntrusted(Run(s', rest[..k - 1]), d);
        }
      }
    } else if !OnUntrusted(s, d) {
      var k :| 0 <= k <= |rest| && OnUntrusted(Run(s', rest[..k]), d);
      assert OnUntrusted(Run(s, actions[..k + 1]), d);
    }
  }

  lemma NoUntrustedCutCons(s: State, actions: seq<Action>, d: Device)
    requires actions != []
    ensures NoUntrustedCut(s, actions, d) <==>
      !CutsUntrusted(s, actions[0], d) && NoUntrustedCut(Step(s, actions[0]), actions[1..], d)
  {
    var s', rest := Step(s, actions[0]), actions[1..];
    assert Run(s, actions[..0]) == s;
    forall k | 0 <= k < |rest| ensures Run(s, actions[..k + 1]) == Run(s', rest[..k]) && actions[k + 1] == rest[k] {
      PrefixAfterStep(s, actions, k);
    }
    if !CutsUntrusted(s, actions[0], d) && NoUntrustedCut(s', rest, d) {
      forall k | 0 <= k < |actions| ensures !CutsUntrusted(Run(s, actions[..k]), actions[k], d) {
        if k > 0 {
          assert !CutsUntrusted(Run(s', rest[..k - 1]), rest[k - 1], d);
        }
      }
    } else if !CutsUntrusted(s, actions[0], d) {
      var k :| 0 <= k < |rest| && CutsUntrusted(Run(s', rest[..k]), rest[k], d);
      assert CutsUntrusted(Run(s, actions[..k + 1]), actions[k + 1], d);
    }
  }

  lemma {:induction false} TrustedFrom(s: State, actions: seq<Action>, d: Device)
    requires Inv(s) && NothingLost(s, d)
    ensures NeverOnUntrusted(s, actions, d) <==> NoUntrustedCut(s, actions, d)
    ensures NoUntrustedCut(s, actions, d) ==> NothingLost(Run(s, actions), d)
    ensures Run(s, actions).Agent(d).initial == s.Agent(d).initial
    decreases |actions|
  {
    if actions != [] {
      var s' := Step(s, actions[0]);
      StepKeepsInv(s, actions[0]);
      StepRecords(s, actions[0], d);
      GuaranteeLostExactlyByRebootInWindow(s, actions[0], d);
      NeverOnUntrustedCons(s, actions, d);
      NoUntrustedCutCons(s, actions, d);
      if CutsUntrusted(s, actions[0], d) {
        assert OnUntrusted(Run(s', actions[1..][..0]), d);
        InitialStays(s', actions[1..], d);
      } else {
        TrustedFrom(s', actions[1..], d);
      }
    }
  }

  lemma {:induction false} InitialStays(s: State, actions: seq<Action>, d: Device)
    requires Inv(s)
    ensures Run(s, actions).Agent(d).initial == s.Agent(d).initial
    decreases |actions|
  {
    if actions != [] {
      StepKeepsInv(s, actions[0]);
      StepRecords(s, actions[0], d);
      InitialStays(Step(s, actions[0]), actions[1..], d);
    }
  }

  /** Over every run: the device is never left on an untrusted channel with no timer running if and only if no
    * step reboots it inside an armed window whose target is not already trusted. */
  lemma TrustedExactlyWithoutUntrustedCut(now: int, apChannel: int, staChannel: int, actions: seq<Action>, d: Device)
    ensures var s0 := Start(now, apChannel, staChannel);
      NeverOnUntrusted(s0, actions, d) <==> NoUntrustedCut(s0, actions, d)
  {
    TrustedFrom(Start(now, apChannel, staChannel), actions, d);
  }

  /** In every run without such a reboot: whenever no timer runs, the committed channel is the one the device
    * started with, or one that a verify-confirm saw live while the timer armed for it was running. Applies may
    * fail, replies may be lost, timers may fire, trusted channels may be rebooted on and jobs may be aborted at
    * any point. */
  lemma SafeApplyAlways(now: int, apChannel: int, staChannel: int, actions: seq<Action>, d: Device)
    requires NoUntrustedCut(Start(now, apChannel, staChannel), actions, d)
    requires Run(Start(now, apChannel, staChannel), actions).Agent(d).rollback.Unarmed?
    ensures var s0 := Start(now, apChannel, staChannel);
      var committed := Run(s0, actions).Agent(d).committed;
      committed == (if d == AP then apChannel else staChannel) || SeenDuring(s0, actions, d, committed)
  {
    var s0 := Start(now, apChannel, staChannel);
    var a := Run(s0, actions).Agent(d);
    EveryReachableState(now, apChannel, staChannel, actions);
    TrustedFrom(s0, actions, d);
    assert a.committed in SafeApply.Trusted(a);
    if a.committed in a.verified {
      VerifiedWasSeen(s0, actions, d, a.committed);
    }
  }

  // ---------- Failing applies and late verifies ----------

  /** An apply that does not engage leaves flash, timer and radio of every device as they were. */
  lemma FailedApplyChangesNothing(s: State, m: ApplyMove, d: Device)
    requires Inv(s) && s.apply.Staged? && !ApplyNext(s, m).apply.Reloading?
    ensures var before, after := s.Agent(d), ApplyNext(s, m).Agent(d);
      after.committed == before.committed && after.rollback == before.rollback && after.loaded == before.loaded
  {
    assert s.apply.snap[s.apply.rows[0]] == s.commands[s.apply.rows[0]];
  }

  /** A successful verify-confirm ends the window for good. The row will be acked either way, but the
    * device keeps the target exactly when the timer was still running or it was committed already. */
  lemma ConfirmedMeansKept(s: State, m: CheckMove)
    requires Inv(s) && CheckBusy(s) && s.check.CheckRows? && m.Verify?
    requires var c := s.commands[s.check.rows[0]];
      && s.check.at - c.appliedAt >= s.check.delay * SECOND && m.ran
      && SafeApply.Matches(c.channel, c.param == HalowOperatingFreq, m.live, m.peer)
    ensures var c := s.commands[s.check.rows[0]];
      var before, after := s.Agent(c.device), CheckNext(s, m).Agent(c.device);
      && after.rollback.Unarmed?
      && (after.committed == c.channel <==> before.rollback.Armed? || before.committed == c.channel)
  {
    var c := s.commands[s.check.rows[0]];
    assert s.check.snap[s.check.rows[0]] == c;
    assert Moves(c, c.device);
  }

  // ---------- Both hazards are reachable ----------

  lemma {:induction false} RunThen(s: State, actions: seq<Action>, a: Action)
    ensures Run(s, actions + [a]) == Step(Run(s, actions), a)
    decreases |actions|
  {
    if actions == [] {
      assert ([a])[1..] == [];
    } else {
      assert (actions + [a])[1..] == actions[1..] + [a];
      RunThen(Step(s, actions[0]), actions[1..], a);
    }
  }

  const CYCLING := Settings(true, 0, 0.0, true, false, false, 1.0, 0.0)

  const SEEN := Observation(true, Some(16), Some(4), Some(1.0))

  /** The one command of the examples: cycle the AP from channel 16 to 24. */
  const HOP := Command(AP, HalowOperatingFreq, 24, 0, 120, Pending, 0)

  lemma FirstHop()
    ensures Pick([], AP, Candidates(AP, Cycle, 16, 4)) == Some(24)
  {
    var r := Candidates(AP, Cycle, 16, 4);
    assert r == Optimizer.Rotation(Plan.CHANNELS_4MHZ, 16);
    assert r[0] == 24;
    assert RevertedChannels([], AP, HalowOperatingFreq) == {};
    Optimizer.FirstAllowedIsFirst(r, {}, 0);
  }

  /** A pass over a degraded link up to the choice of a channel. */
  lemma ReachChoice() returns (actions: seq<Action>)
    ensures Run(Start(0, 16, 6), actions) == Goto(Start(0, 16, 6), Choosing(CYCLING, AP, Cycle, 16, 4))
  {
    var s0 := Start(0, 16, 6);
    actions := [OptimizerBegins(CYCLING)];
    assert Run(s0, actions) == Goto(s0, HalowStart(CYCLING));
    RunThen(s0, actions, OptimizerStep(SEEN));
    actions := actions + [OptimizerStep(SEEN)];
    RunThen(s0, actions, OptimizerStep(SEEN));
    actions := actions + [OptimizerStep(SEEN)];
    RunThen(s0, actions, OptimizerStep(SEEN));
    actions := actions + [OptimizerStep(SEEN)];
    RunThen(s0, actions, OptimizerStep(SEEN));
    actions := actions + [OptimizerStep(SEEN)];
  }

  lemma ChoiceTaken(s: State)
    requires s == Goto(Start(0, 16, 6), Choosing(CYCLING, AP, Cycle, 16, 4))
    ensures OptimizerNext(s, SEEN) == Goto(Start(0, 16, 6), Chosen(CYCLING, AP, 24))
  {
    FirstHop();
    NextIsChoice(s, SEEN, Choose(s.optimizer, Pick([], AP, Candidates(AP, Cycle, 16, 4))));
  }

  /** The pass queues the hop. */
  lemma ReachQueued() returns (actions: seq<Action>)
    ensures Run(Start(0, 16, 6), actions) == Start(0, 16, 6).(commands := [HOP])
  {
    var s0 := Start(0, 16, 6);
    actions := ReachChoice();
    RunThen(s0, actions, OptimizerStep(SEEN));
    ChoiceTaken(Run(s0, actions));
    actions := actions + [OptimizerStep(SEEN)];
    assert Run(s0, actions) == Goto(s0, Chosen(CYCLING, AP, 24));
    RunThen(s0, actions, OptimizerStep(SEEN));
    actions := actions + [OptimizerStep(SEEN)];
  }

  /** A run that takes the AP from channel 16 to an armed apply of channel 24. */
  lemma ReachArmed() returns (actions: seq<Action>)
    ensures var s := Run(Start(0, 16, 6), actions);
      && s.commands == [HOP] && s.now == 0 && s.optimizer.OptimizerIdle? && s.check.CheckIdle?
      && s.apply == Reloading([0], [HOP])
      && s.ap == SafeApply.Apply(SafeApply.Stage(SafeApply.Boot(16), 24), 0)
  {
    var s0 := Start(0, 16, 6);
    actions := ReachQueued();
    RunThen(s0, actions, ApplyBegins);
    actions := actions + [ApplyBegins];
    assert IdsWith([HOP], Pending) == [0] by {
      assert [HOP][..0] == [];
    }
    assert Run(s0, actions).apply == ApplyRows([0], [HOP]);
    RunThen(s0, actions, ApplyStep(StartCall(true)));
    actions := actions + [ApplyStep(StartCall(true))];
    RunThen(s0, actions, ApplyStep(StageChannel));
    actions := actions + [ApplyStep(StageChannel)];
    RunThen(s0, actions, ApplyStep(UciApply(true)));
    actions := actions + [ApplyStep(UciApply(true))];
  }

  /** A reboot inside the window leaves the AP for good on a channel that was never seen live. */
  lemma RebootInWindowStrands() returns (actions: seq<Action>)
    ensures OnUntrusted(Run(Start(0, 16, 6), actions), AP)
    ensures Run(Start(0, 16, 6), actions).ap.committed == 24
  {
    actions := ReachArmed();
    RunThen(Start(0, 16, 6), actions, PowerCycles(AP));
    actions := actions + [PowerCycles(AP)];
  }

  /** From there on to the applied row, its timer still running. */
  lemma ReachApplied() returns (actions: seq<Action>)
    ensures var s := Run(Start(0, 16, 6), actions);
      && s.commands == [HOP.(status := Applied)] && s.now == 0 && s.check.CheckIdle?
      && s.ap == SafeApply.Reload(SafeApply.Apply(SafeApply.Stage(SafeApply.Boot(16), 24), 0))
  {
    var s0 := Start(0, 16, 6);
    actions := ReachArmed();
    RunThen(s0, actions, ApplyStep(ReloadNetwork));
    actions := actions + [ApplyStep(ReloadNetwork)];
    RunThen(s0, actions, ApplyStep(WriteStatus));
    actions := actions + [ApplyStep(WriteStatus)];
  }

  /** A verify that comes after the timer has fired, 121 seconds after an apply with a timeout of 120,
    * still acks the command: the row says acked, the device is back on its old channel. */
  lemma AckedAfterRollback() returns (actions: seq<Action>)
    ensures var s := Run(Start(0, 16, 6), actions);
      && |s.commands| == 1 && s.commands[0].channel == 24 && s.commands[0].status == Acked
      && s.ap.rollback.Unarmed? && s.ap.committed == 16
  {
    var s0 := Start(0, 16, 6);
    actions := ReachApplied();
    var seen := Verify(true, Some(24), true, true);
    RunThen(s0, actions, Tick(121 * SECOND));
    actions := actions + [Tick(121 * SECOND)];
    RunThen(s0, actions, TimerFires(AP));
    actions := actions + [TimerFires(AP)];
    LateTick(Run(s0, actions), seen);
    RunThen(s0, actions, CheckBegins(30));
    actions := actions + [CheckBegins(30)];
    RunThen(s0, actions, CheckStep(seen));
    actions := actions + [CheckStep(seen)];
    RunThen(s0, actions, CheckStep(WriteVerdict));
    actions := actions + [CheckStep(WriteVerdict)];
  }

  lemma LateTick(s: State, seen: CheckMove)
    requires s.commands == [HOP.(status := Applied)] && s.now == 121 * SECOND && s.check.CheckIdle?
    requires s.ap.rollback.Unarmed? && seen == Verify(true, Some(24), true, true)
    ensures var end := CheckNext(CheckNext(CheckBegin(s, 30), seen), WriteVerdict);
      |end.commands| == 1 && end.commands[0] == HOP.(status := Acked) && end.ap == s.ap
  {
    assert IdsWith(s.commands, Applied) == [0] by {
      assert s.commands[..0] == [];
    }
    assert CheckBegin(s, 30).check == CheckRows([0], s.commands, s.now, 30);
  }
}
