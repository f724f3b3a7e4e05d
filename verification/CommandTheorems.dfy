/** What holds over every run of the command protocol. */
module CommandTheorems {
  import opened Wrappers
  import opened CommandTable
  import opened CommandProtocol
  import opened CommandInvariants
  import Spacing

  // ---------- Runs ----------

  function Run(s: State, actions: seq<Action>): State
    decreases |actions|
  {
    if actions == [] then s else Run(Step(s, actions[0]), actions[1..])
  }

  lemma {:induction false} RunKeepsInv(s: State, actions: seq<Action>)
    requires Inv(s)
    ensures Inv(Run(s, actions))
    decreases |actions|
  {
    if actions != [] {
      StepKeepsInv(s, actions[0]);
      RunKeepsInv(Step(s, actions[0]), actions[1..]);
    }
  }

  /** Every state the system can reach from a fresh database satisfies the invariant. */
  lemma EveryReachableState(now: int, apChannel: int, staChannel: int, actions: seq<Action>)
    ensures Inv(Run(Start(now, apChannel, staChannel), actions))
  {
    RunKeepsInv(Start(now, apChannel, staChannel), actions);
  }

  // ---------- Single writer ----------

  /** In every reachable state at most one channel command per device is pending or applied. */
  lemma SingleWriter(now: int, apChannel: int, staChannel: int, actions: seq<Action>, i: nat, j: nat)
    requires var t := Run(Start(now, apChannel, staChannel), actions).commands;
      i < |t| && j < |t| && t[i].param == t[j].param && t[i].device == t[j].device && t[i].param != Reboot &&
      t[i].InFlight() && t[j].InFlight()
    ensures i == j
  {
    EveryReachableState(now, apChannel, staChannel, actions);
    var t := Run(Start(now, apChannel, staChannel), actions).commands;
    assert Moves(t[i], t[i].device) && Moves(t[j], t[i].device);
    if i < j {
    } else if j < i {
    }
  }

  predicate SameKey(c: Command, c': Command) {
    c'.device == c.device && c'.param == c.param && c'.channel == c.channel && c'.createdAt == c.createdAt
  }

  /** The rows of `t` are still there in `t'`, with the same key and a status they may move to. */
  ghost predicate Evolves(t: Table, t': Table) {
    && |t| <= |t'|
    && forall i :: 0 <= i < |t| ==>
         && SameKey(t[i], t'[i])
         && MayMove(t[i].param, t[i].status, t'[i].status)
         && (!t[i].InFlight() ==> t'[i] == t[i])
  }

  /** One await moves statuses only along pending, applied, acked/reverted/unknown (a reboot: pending,
    * acked), although the UPDATEs name nothing but the row's id. */
  lemma StepEvolves(s: State, a: Action)
    requires Inv(s)
    ensures Evolves(s.commands, Step(s, a).commands)
  {
    match a
    case ApplyStep(m) => ApplyEvolves(s, m);
    case CheckStep(m) => CheckEvolves(s, m);
    case _ =>
  }

  lemma ApplyEvolves(s: State, m: ApplyMove)
    requires Inv(s)
    ensures Evolves(s.commands, ApplyNext(s, m).commands)
  {
    if ApplyBusy(s) {
      assert s.apply.snap[s.apply.rows[0]] == s.commands[s.apply.rows[0]];
    }
  }

  lemma CheckEvolves(s: State, m: CheckMove)
    requires Inv(s)
    ensures Evolves(s.commands, CheckNext(s, m).commands)
  {
    if CheckBusy(s) {
      assert s.check.snap[s.check.rows[0]] == s.commands[s.check.rows[0]];
    }
  }

  predicate Terminal(status: Status) {
    status != Pending && status != Applied
  }

  /** Whatever happens next, a terminal row stays exactly as it is. */
  lemma {:induction false} TerminalIsFinal(s: State, actions: seq<Action>, i: nat)
    requires Inv(s) && i < |s.commands| && Terminal(s.commands[i].status)
    ensures i < |Run(s, actions).commands| && Run(s, actions).commands[i] == s.commands[i]
    decreases |actions|
  {
    if actions != [] {
      StepKeepsInv(s, actions[0]);
      StepEvolves(s, actions[0]);
      TerminalIsFinal(Step(s, actions[0]), actions[1..], i);
    }
  }

  /** Rows are never removed, and their key and creation time never change. */
  lemma {:induction false} KeysArePermanent(s: State, actions: seq<Action>, i: nat)
    requires Inv(s) && i < |s.commands|
    ensures i < |Run(s, actions).commands|
    ensures SameKey(s.commands[i], Run(s, actions).commands[i])
    decreases |actions|
  {
    if actions != [] {
      StepKeepsInv(s, actions[0]);
      StepEvolves(s, actions[0]);
      KeysArePermanent(Step(s, actions[0]), actions[1..], i);
    }
  }

  // ---------- A check tick decides ----------

  /** Old enough that a tick started at `at` must decide the row. */
  predicate Overdue(c: Command, at: int, delaySeconds: int) {
    at - c.appliedAt >= delaySeconds * SECOND && at - c.appliedAt >= (c.ttlSeconds + 15) * SECOND
  }

  /** The step does not abort the check job, and does not find the target row of command `id` missing. Other
    * commands' target rows may be missing. */
  predicate LetsCheckWork(s: State, a: Action, id: nat) {
    && a != Aborts(CheckJob)
    && (a == CheckStep(NoTargetRow) && s.check.CheckRows? && s.check.rows != [] ==> s.check.rows[0] != id)
  }

  ghost predicate CheckWorks(s: State, actions: seq<Action>, id: nat)
    decreases |actions|
  {
    actions == [] || (LetsCheckWork(s, actions[0], id) && CheckWorks(Step(s, actions[0]), actions[1..], id))
  }

  predicate StillToDo(s: State, id: nat, at: int, delay: int) {
    !s.check.CheckIdle? && id in s.check.rows && s.check.at == at && s.check.delay == delay
  }

  lemma OtherStepsLeaveCheck(s: State, a: Action)
    requires !s.check.CheckIdle? && !a.CheckStep? && a != Aborts(CheckJob)
    ensures Step(s, a).check == s.check
  {
  }

  lemma CheckStepAdvances(s: State, m: CheckMove, id: nat)
    requires CheckInv(s.commands, s.check) && LetsCheckWork(s, CheckStep(m), id) && id < |s.commands|
    requires !s.check.CheckIdle? && id in s.check.rows && Overdue(s.commands[id], s.check.at, s.check.delay)
    ensures Terminal(CheckNext(s, m).commands[id].status) || StillToDo(CheckNext(s, m), id, s.check.at, s.check.delay)
  {
    var rows := s.check.rows;
    var k :| 0 <= k < |rows| && rows[k] == id;
    assert k > 0 ==> rows[1..][k - 1] == id;
    assert s.check.snap[rows[0]] == s.commands[rows[0]];
  }

  lemma CheckStepDecides(s: State, a: Action, id: nat)
    requires Inv(s) && LetsCheckWork(s, a, id) && id < |s.commands|
    requires !s.check.CheckIdle? && id in s.check.rows && Overdue(s.commands[id], s.check.at, s.check.delay)
    ensures id < |Step(s, a).commands|
    ensures Terminal(Step(s, a).commands[id].status) ||
            (StillToDo(Step(s, a), id, s.check.at, s.check.delay) && Step(s, a).commands[id] == s.commands[id])
  {
    StepKeepsInv(s, a);
    StepEvolves(s, a);
    if a.CheckStep? {
      CheckStepAdvances(s, a.checkMove, id);
      CheckStepKeepsRow(s, a.checkMove, id);
    } else {
      OtherStepsLeaveCheck(s, a);
      SelectedRowsAgree(s, id);
      SelectedRowsAgree(Step(s, a), id);
    }
  }

  lemma CheckStepKeepsRow(s: State, m: CheckMove, id: nat)
    requires CheckInv(s.commands, s.check) && id < |s.commands|
    ensures var c' := CheckNext(s, m).commands[id]; c' == s.commands[id] || c'.status != s.commands[id].status
    ensures var c' := CheckNext(s, m).commands[id];
      s.commands[id].status == Applied && c' != s.commands[id] ==> Terminal(c'.status)
  {
    if CheckBusy(s) {
      assert s.check.snap[s.check.rows[0]] == s.commands[s.check.rows[0]];
    }
  }

  lemma SelectedRowsAgree(s: State, id: nat)
    requires CheckInv(s.commands, s.check) && !s.check.CheckIdle? && id in s.check.rows
    ensures id < |s.check.snap| <= |s.commands|
    ensures s.commands[id] == s.check.snap[id] && s.commands[id].status == Applied
  {
  }

  /** Under any interleaving, a tick that selected an overdue row leaves it terminal once it is past
    * it: the row is either still waiting its turn in that same tick or decided. */
  lemma {:induction false} CheckTickDecides(s: State, actions: seq<Action>, id: nat)
    requires Inv(s) && id < |s.commands| && CheckWorks(s, actions, id)
    requires !s.check.CheckIdle? && id in s.check.rows && Overdue(s.commands[id], s.check.at, s.check.delay)
    ensures id < |Run(s, actions).commands|
    ensures Terminal(Run(s, actions).commands[id].status) ||
            StillToDo(Run(s, actions), id, s.check.at, s.check.delay)
    decreases |actions|
  {
    if actions != [] {
      var s' := Step(s, actions[0]);
      CheckStepDecides(s, actions[0], id);
      StepKeepsInv(s, actions[0]);
      if Terminal(s'.commands[id].status) {
        TerminalIsFinal(s', actions[1..], id);
      } else {
        CheckTickDecides(s', actions[1..], id);
      }
    }
  }

  /** When the tick is over, every applied row that was overdue when it began is terminal. */
  lemma TickLeavesNothingOverdue(s: State, delaySeconds: int, actions: seq<Action>, id: nat)
    requires Inv(s) && s.check.CheckIdle? && id < |s.commands| && s.commands[id].status == Applied
    requires Overdue(s.commands[id], s.now, delaySeconds)
    requires CheckWorks(Step(s, CheckBegins(delaySeconds)), actions, id)
    requires Run(Step(s, CheckBegins(delaySeconds)), actions).check.CheckIdle?
    ensures var t := Run(Step(s, CheckBegins(delaySeconds)), actions).commands;
      id < |t| && Terminal(t[id].status)
  {
    StepKeepsInv(s, CheckBegins(delaySeconds));
    CheckTickDecides(Step(s, CheckBegins(delaySeconds)), actions, id);
  }

  // ---------- Bounded failure ----------

  ghost predicate NoneNew(t: Table, t': Table, d: Device, channel: int) {
    |t| <= |t'| && forall i :: |t| <= i < |t'| && Moves(t'[i], d) ==> t'[i].channel != channel
  }

  ghost predicate OnlyRebootsNew(t: Table, t': Table) {
    |t| <= |t'| && forall i :: |t| <= i < |t'| ==> t'[i].param == Reboot
  }

  lemma ApplyAddsNothing(s: State, m: ApplyMove)
    ensures |ApplyNext(s, m).commands| == |s.commands|
  {
  }

  lemma CheckAddsNothing(s: State, m: CheckMove)
    ensures |CheckNext(s, m).commands| == |s.commands|
  {
  }

  /** Only the optimizer adds channel commands. */
  lemma OthersAddOnlyReboots(s: State, a: Action)
    requires !a.OptimizerStep?
    ensures OnlyRebootsNew(s.commands, Step(s, a).commands)
  {
    if a.ApplyStep? {
      ApplyAddsNothing(s, a.applyMove);
    } else if a.CheckStep? {
      CheckAddsNothing(s, a.checkMove);
    }
  }

  lemma RebootsAreNotNew(t: Table, t': Table, d: Device, channel: int)
    requires OnlyRebootsNew(t, t')
    ensures NoneNew(t, t', d, channel)
  {
  }

  lemma OptimizerRespectsFailures(s: State, o: Observation, d: Device, channel: int)
    requires OptimizerInv(s.commands, s.now, s.optimizer) && !Untried(s.commands, d, channel)
    ensures NoneNew(s.commands, OptimizerNext(s, o).commands, d, channel)
  {
    OptimizerOnlyInserts(s, o);
  }

  lemma FailureStays(t: Table, t': Table, d: Device, channel: int)
    requires Evolves(t, t') && !Untried(t, d, channel)
    ensures !Untried(t', d, channel)
  {
    var i :| 0 <= i < |t| && Moves(t[i], d) && Failed(t[i]) && t[i].channel == channel;
    assert t'[i] == t[i];
  }

  lemma StepRespectsFailures(s: State, a: Action, d: Device, channel: int)
    requires Inv(s) && !Untried(s.commands, d, channel)
    ensures NoneNew(s.commands, Step(s, a).commands, d, channel)
  {
    if a.OptimizerStep? {
      OptimizerRespectsFailures(s, a.seen, d, channel);
    } else {
      OthersAddOnlyReboots(s, a);
      RebootsAreNotNew(s.commands, Step(s, a).commands, d, channel);
    }
  }

  /** A channel that has reverted once on a device is never commanded there again. So a list whose
    * channels have all reverted gets no further command. */
  lemma {:induction false} FailedChannelIsNeverRetried(s: State, actions: seq<Action>, d: Device, channel: int)
    requires Inv(s) && !Untried(s.commands, d, channel)
    ensures NoneNew(s.commands, Run(s, actions).commands, d, channel)
    decreases |actions|
  {
    if actions != [] {
      var s' := Step(s, actions[0]);
      StepKeepsInv(s, actions[0]);
      StepRespectsFailures(s, actions[0], d, channel);
      StepEvolves(s, actions[0]);
      FailureStays(s.commands, s'.commands, d, channel);
      FailedChannelIsNeverRetried(s', actions[1..], d, channel);
      NoneNewExtends(s, actions, d, channel);
    }
  }

  lemma NoneNewExtends(s: State, actions: seq<Action>, d: Device, channel: int)
    requires Inv(s) && actions != []
    requires NoneNew(s.commands, Step(s, actions[0]).commands, d, channel)
    requires NoneNew(Step(s, actions[0]).commands, Run(Step(s, actions[0]), actions[1..]).commands, d, channel)
    ensures NoneNew(s.commands, Run(s, actions).commands, d, channel)
  {
    var t, t', t'' := s.commands, Step(s, actions[0]).commands, Run(s, actions).commands;
    StepKeepsInv(s, actions[0]);
    forall i | |t| <= i < |t''| && Moves(t''[i], d) ensures t''[i].channel != channel {
      if i < |t'| {
        KeysArePermanent(Step(s, actions[0]), actions[1..], i);
      }
    }
  }

  /** The ids of the device's channel commands that reverted. */
  function FailedIds(t: Table, d: Device): set<nat> {
    set i | 0 <= i < |t| && Moves(t[i], d) && Failed(t[i])
  }

  lemma {:induction false} AtMostOneEach(ids: set<nat>, t: Table, channels: set<int>)
    requires forall i :: i in ids ==> i < |t| && t[i].channel in channels
    requires forall i, j :: i in ids && j in ids && i != j ==> t[i].channel != t[j].channel
    ensures |ids| <= |channels|
    decreases |ids|
  {
    if ids != {} {
      var i :| i in ids;
      AtMostOneEach(ids - {i}, t, channels - {t[i].channel});
    }
  }

  lemma {:induction false} SetOfSeqIsNoLarger(s: seq<int>)
    ensures |set c | c in s| <= |s|
  {
    if s == [] {
      assert (set c | c in s) == {};
    } else {
      var rest := s[1..];
      SetOfSeqIsNoLarger(rest);
      assert (set c | c in s) == {s[0]} + (set c | c in rest) by {
        forall c | c in s ensures c == s[0] || c in rest {
        }
      }
    }
  }

  /** Over a whole run at most 42 HaLow commands (the size of the plan) and 3 2.4GHz commands revert. */
  lemma BoundedFailure(now: int, apChannel: int, staChannel: int, actions: seq<Action>)
    ensures var t := Run(Start(now, apChannel, staChannel), actions).commands;
      |FailedIds(t, AP)| <= 42 && |FailedIds(t, STA)| <= 3
  {
    EveryReachableState(now, apChannel, staChannel, actions);
    var t := Run(Start(now, apChannel, staChannel), actions).commands;
    FailuresFitThePlan(t, AP);
    FailuresFitThePlan(t, STA);
  }

  lemma FailuresFitThePlan(t: Table, d: Device)
    requires DistinctFailures(t) && exists now :: WellKeyed(t, now)
    ensures |FailedIds(t, d)| <= |ChannelsOf(d)|
  {
    var now :| WellKeyed(t, now);
    AtMostOneEach(FailedIds(t, d), t, set c | c in ChannelsOf(d));
    SetOfSeqIsNoLarger(ChannelsOf(d));
  }

  // ---------- Command rate ----------

  /** Any two channel commands of a device are at least `gap` apart. */
  ghost predicate Spaced(t: Table, gap: int) {
    forall i, j, d :: 0 <= i < j < |t| && Moves(t[i], d) && Moves(t[j], d) ==> t[i].createdAt + gap <= t[j].createdAt
  }

  predicate CoolsFor(task: OptimizerTask, gap: int) {
    task.OptimizerIdle? || task.cfg.cooldown >= gap
  }

  lemma OptimizerOnlyInserts(s: State, o: Observation)
    ensures var s' := OptimizerNext(s, o);
      && (s.optimizer.Chosen? ==>
            var d := s.optimizer.device;
            s'.commands == s.commands +
              [Command(d, ParamOf(d), s.optimizer.target, s.now, DefaultTtlSeconds(ParamOf(d)), Pending, 0)])
      && (!s.optimizer.Chosen? ==> s'.commands == s.commands)
      && (s.optimizer.OptimizerIdle? ==> s'.optimizer.OptimizerIdle?)
      && (!s'.optimizer.OptimizerIdle? ==> s'.optimizer.cfg == s.optimizer.cfg)
  {
  }

  lemma AppendSpaces(t: Table, c: Command, gap: int)
    requires Spaced(t, gap)
    requires forall i :: 0 <= i < |t| && Moves(t[i], c.device) ==> t[i].createdAt + gap <= c.createdAt
    ensures Spaced(t + [c], gap)
  {
  }

  lemma OptimizerSpaces(s: State, o: Observation, gap: int)
    requires OptimizerInv(s.commands, s.now, s.optimizer) && Spaced(s.commands, gap) && CoolsFor(s.optimizer, gap)
    ensures Spaced(OptimizerNext(s, o).commands, gap) && CoolsFor(OptimizerNext(s, o).optimizer, gap)
  {
    OptimizerOnlyInserts(s, o);
    if s.optimizer.Chosen? {
      var d := s.optimizer.device;
      AppendSpaces(s.commands,
        Command(d, ParamOf(d), s.optimizer.target, s.now, DefaultTtlSeconds(ParamOf(d)), Pending, 0), gap);
    }
  }

  lemma SpacedByKeys(t: Table, t': Table, gap: int)
    requires Spaced(t, gap) && Evolves(t, t') && OnlyRebootsNew(t, t')
    ensures Spaced(t', gap)
  {
    forall i, j, d | 0 <= i < j < |t'| && Moves(t'[i], d) && Moves(t'[j], d)
      ensures t'[i].createdAt + gap <= t'[j].createdAt
    {
      assert Moves(t[i], d) && Moves(t[j], d);
    }
  }

  lemma OthersKeepCooling(s: State, a: Action, gap: int)
    requires !a.OptimizerStep? && CoolsFor(s.optimizer, gap) && (a.OptimizerBegins? ==> a.cfg.cooldown >= gap)
    ensures CoolsFor(Step(s, a).optimizer, gap)
  {
  }

  lemma StepSpaces(s: State, a: Action, gap: int)
    requires Inv(s) && Spaced(s.commands, gap) && CoolsFor(s.optimizer, gap)
    requires a.OptimizerBegins? ==> a.cfg.cooldown >= gap
    ensures Spaced(Step(s, a).commands, gap) && CoolsFor(Step(s, a).optimizer, gap)
  {
    if a.OptimizerStep? {
      OptimizerSpaces(s, a.seen, gap);
    } else {
      OthersKeepCooling(s, a, gap);
      StepEvolves(s, a);
      OthersAddOnlyReboots(s, a);
      SpacedByKeys(s.commands, Step(s, a).commands, gap);
    }
  }

  lemma {:induction false} RunSpaces(s: State, actions: seq<Action>, gap: int)
    requires Inv(s) && Spaced(s.commands, gap) && CoolsFor(s.optimizer, gap)
    requires forall k :: 0 <= k < |actions| && actions[k].OptimizerBegins? ==> actions[k].cfg.cooldown >= gap
    ensures Spaced(Run(s, actions).commands, gap)
    decreases |actions|
  {
    if actions != [] {
      StepKeepsInv(s, actions[0]);
      StepSpaces(s, actions[0], gap);
      RunSpaces(Step(s, actions[0]), actions[1..], gap);
    }
  }

  /** While the cooldown setting is at least `gap`, any two channel commands of a device are at least
    * `gap` apart whatever became of them, so a window of length `span` holds at most
    * floor(span / gap) + 1 of them. */
  lemma CommandRate(now: int, apChannel: int, staChannel: int, actions: seq<Action>, gap: nat, d: Device, ids: seq<nat>)
    requires forall k :: 0 <= k < |actions| && actions[k].OptimizerBegins? ==> actions[k].cfg.cooldown >= gap
    requires var t := Run(Start(now, apChannel, staChannel), actions).commands;
      |ids| > 0 && (forall k :: 0 <= k < |ids| ==> ids[k] < |t| && Moves(t[ids[k]], d)) &&
      (forall j, k :: 0 <= j < k < |ids| ==> ids[j] < ids[k])
    ensures var t := Run(Start(now, apChannel, staChannel), actions).commands;
      var span := t[ids[|ids| - 1]].createdAt - t[ids[0]].createdAt;
      (|ids| - 1) * gap <= span && (gap > 0 ==> |ids| <= span / gap + 1)
  {
    RunSpaces(Start(now, apChannel, staChannel), actions, gap);
    var t := Run(Start(now, apChannel, staChannel), actions).commands;
    SpacedSpan(t, gap, d, ids);
    if gap > 0 {
      Spacing.CountFromSpan(|ids|, gap, t[ids[|ids| - 1]].createdAt - t[ids[0]].createdAt);
    }
  }

  lemma {:induction false} SpacedSpan(t: Table, gap: nat, d: Device, ids: seq<nat>)
    requires Spaced(t, gap) && |ids| > 0
    requires forall k :: 0 <= k < |ids| ==> ids[k] < |t| && Moves(t[ids[k]], d)
    requires forall j, k :: 0 <= j < k < |ids| ==> ids[j] < ids[k]
    ensures (|ids| - 1) * gap <= t[ids[|ids| - 1]].createdAt - t[ids[0]].createdAt
  {
    if |ids| > 1 {
      var n := |ids| - 1;
      SpacedSpan(t, gap, d, ids[..n]);
      assert (|ids| - 1) * gap == (n - 1) * gap + gap;
    }
  }
}
