/** The other way a row and its device can disagree: a row that says reverted or unknown although the device
  * keeps the channel. */
module LostReplies {
  import opened Wrappers
  import opened CommandTable
  import opened CommandProtocol
  import opened CommandInvariants
  import opened CommandTheorems
  import opened SafeApplyRuns
  import SafeApply

  // ---------- What can end a window for good ----------

  /** The command's apply has changed the device's channel and its timer is running. */
  predicate Trying(s: State, d: Device, id: nat) {
    var a := s.Agent(d);
    a.rollback.Armed? && a.rollback.owner == id && a.rollback.previous != a.committed
  }

  /** The step ends that window with the new channel in place. */
  predicate Keeps(s: State, a: Action, d: Device, id: nat) {
    && Trying(s, d, id)
    && Step(s, a).Agent(d).rollback.Unarmed? && Step(s, a).Agent(d).committed == s.Agent(d).committed
  }

  /** The step is a verify-confirm of command `id` that finds its channel live while the timer armed for it runs. */
  predicate Confirms(s: State, a: Action, d: Device, id: nat) {
    Sighting(s, a, d, s.Agent(d).committed) && s.check.rows[0] == id
  }

  lemma ConfirmKeeps(s: State, a: Action, d: Device)
    requires Inv(s) && Sighting(s, a, d, s.Agent(d).committed)
    ensures var after := Step(s, a).Agent(d); after.rollback.Unarmed? && after.committed == s.Agent(d).committed
    ensures s.Agent(d).rollback.owner == s.check.rows[0]
  {
    assert s.check.snap[s.check.rows[0]] == s.commands[s.check.rows[0]];
    assert Moves(s.commands[s.check.rows[0]], d);
  }

  /** A check job's step that ends a window is such a verify-confirm. */
  lemma CheckEndsWindow(s: State, m: CheckMove, d: Device)
    requires Inv(s) && s.Agent(d).rollback.Armed? && CheckNext(s, m).Agent(d).rollback.Unarmed?
    ensures Sighting(s, CheckStep(m), d, s.Agent(d).committed)
  {
    assert CheckBusy(s);
    var c := s.commands[s.check.rows[0]];
    assert s.check.snap[s.check.rows[0]] == c;
    assert Moves(c, c.device);
  }

  /** An apply job's step that ends a window is a reboot. */
  lemma ApplyEndsWindow(s: State, m: ApplyMove, d: Device)
    requires Inv(s) && s.Agent(d).rollback.Armed? && ApplyNext(s, m).Agent(d).rollback.Unarmed?
    ensures Reboots(s, ApplyStep(m), d)
  {
    assert ApplyBusy(s);
    assert s.apply.snap[s.apply.rows[0]] == s.commands[s.apply.rows[0]];
  }

  /** A window ends with the new channel in place by a matching verify-confirm of its command, or by a reboot. */
  lemma KeepsExactlyWhen(s: State, a: Action, d: Device, id: nat)
    requires Inv(s)
    ensures Keeps(s, a, d, id) <==> Trying(s, d, id) && (Confirms(s, a, d, id) || Reboots(s, a, d))
  {
    if Trying(s, d, id) {
      if Sighting(s, a, d, s.Agent(d).committed) {
        ConfirmKeeps(s, a, d);
      }
      if Reboots(s, a, d) {
        RebootPowerCycles(s, a, d);
      }
      if Keeps(s, a, d, id) {
        EndsWindow(s, a, d);
        if !Reboots(s, a, d) {
          ConfirmKeeps(s, a, d);
        }
      }
    }
  }

  lemma EndsWindow(s: State, a: Action, d: Device)
    requires Inv(s) && s.Agent(d).rollback.Armed? && Step(s, a).Agent(d).rollback.Unarmed?
    requires s.Agent(d).rollback.previous != s.Agent(d).committed
    requires Step(s, a).Agent(d).committed == s.Agent(d).committed
    ensures Sighting(s, a, d, s.Agent(d).committed) || Reboots(s, a, d)
  {
    match a
    case CheckStep(m) => CheckEndsWindow(s, m, d);
    case ApplyStep(m) => ApplyEndsWindow(s, m, d);
    case OptimizerStep(o) => OptimizerLeavesAgents(s, o);
    case _ =>
  }

  // ---------- What becomes of a positive answer ----------

  /** The check job has heard that command `id` is confirmed, and has not written it down. */
  predicate AnswerHeld(s: State, id: nat) {
    s.check.CheckAnswered? && s.check.rows != [] && s.check.rows[0] == id && s.check.answer == Some(true)
  }

  /** Later on the check job is aborted, still holding that answer. */
  ghost predicate DropsAnswer(s: State, later: seq<Action>, id: nat) {
    exists j :: 0 <= j < |later| && later[j] == Aborts(CheckJob) &&
                forall i :: 0 <= i <= j ==> AnswerHeld(Run(s, later[..i]), id)
  }

  /** A verify-confirm whose answer never reaches the row: the reply is lost, or the job with it. */
  ghost predicate Unheard(s: State, a: Action, later: seq<Action>, d: Device, id: nat) {
    Confirms(s, a, d, id) && (!a.checkMove.replied || DropsAnswer(Step(s, a), later, id))
  }

  predicate DelayOver(s: State, id: nat) {
    id < |s.commands| && s.check.CheckAnswered? && s.check.at - s.commands[id].appliedAt >= s.check.delay * SECOND
  }

  lemma HeldCheckStep(s: State, m: CheckMove, id: nat)
    requires Inv(s) && AnswerHeld(s, id) && DelayOver(s, id)
    ensures CheckNext(s, m) == s || CheckNext(s, m).commands == s.commands[id := s.commands[id].(status := Acked)]
  {
    SelectedRowsAgree(s, id);
    if m.WriteVerdict? {
      NextIsJudged(s, id, Judged(s));
    }
  }

  lemma HeldStep(s: State, a: Action, id: nat)
    requires Inv(s) && AnswerHeld(s, id) && DelayOver(s, id) && a != Aborts(CheckJob)
    ensures var s' := Step(s, a);
      (AnswerHeld(s', id) && DelayOver(s', id)) || (id < |s'.commands| && s'.commands[id].status == Acked)
  {
    StepKeepsInv(s, a);
    SelectedRowsAgree(s, id);
    if a.CheckStep? {
      HeldCheckStep(s, a.checkMove, id);
    } else {
      OtherStepsLeaveCheck(s, a);
      SelectedRowsAgree(Step(s, a), id);
    }
  }

  lemma DropsLater(s: State, later: seq<Action>, id: nat)
    requires later != [] && AnswerHeld(s, id) && DropsAnswer(Step(s, later[0]), later[1..], id)
    ensures DropsAnswer(s, later, id)
  {
    var s', rest := Step(s, later[0]), later[1..];
    var j :| 0 <= j < |rest| && rest[j] == Aborts(CheckJob) &&
             forall i :: 0 <= i <= j ==> AnswerHeld(Run(s', rest[..i]), id);
    assert Run(s, later[..0]) == s;
    forall i | 0 <= i <= j + 1 ensures AnswerHeld(Run(s, later[..i]), id) {
      if i > 0 {
        PrefixAfterStep(s, later, i - 1);
        assert AnswerHeld(Run(s', rest[..i - 1]), id);
      }
    }
    assert later[j + 1] == Aborts(CheckJob);
  }

  lemma {:induction false} HeldRun(s: State, later: seq<Action>, id: nat)
    requires Inv(s) && AnswerHeld(s, id) && DelayOver(s, id)
    ensures var end := Run(s, later);
      || DropsAnswer(s, later, id) || AnswerHeld(end, id)
      || (id < |end.commands| && end.commands[id].status == Acked)
    decreases |later|
  {
    if later != [] {
      var s', rest := Step(s, later[0]), later[1..];
      if later[0] == Aborts(CheckJob) {
        assert Run(s, later[..0]) == s;
        assert DropsAnswer(s, later, id);
      } else {
        HeldStep(s, later[0], id);
        StepKeepsInv(s, later[0]);
        if AnswerHeld(s', id) && DelayOver(s', id) {
          HeldRun(s', rest, id);
          if DropsAnswer(s', rest, id) {
            DropsLater(s, later, id);
          }
        } else {
          TerminalIsFinal(s', rest, id);
        }
      }
    }
  }

  lemma ConfirmAnswered(s: State, a: Action, d: Device, id: nat)
    requires Inv(s) && Confirms(s, a, d, id) && a.checkMove.replied
    ensures AnswerHeld(Step(s, a), id) && DelayOver(Step(s, a), id)
  {
    SelectedRowsAgree(s, id);
    assert Moves(s.commands[id], d);
  }

  /** A row that ends up reverted or unknown has heard of no verify-confirm that matched. */
  lemma DecidedOtherwise(s: State, a: Action, later: seq<Action>, d: Device, id: nat)
    requires Inv(s) && Confirms(s, a, d, id)
    requires var end := Run(Step(s, a), later);
      id < |end.commands| && end.commands[id].status in {Reverted, Unknown}
    ensures Unheard(s, a, later, d, id)
  {
    if a.checkMove.replied {
      var s' := Step(s, a);
      StepKeepsInv(s, a);
      ConfirmAnswered(s, a, d, id);
      HeldRun(s', later, id);
      RunKeepsInv(s', later);
      if AnswerHeld(Run(s', later), id) {
        SelectedRowsAgree(Run(s', later), id);
      }
    }
  }

  lemma {:induction false} RunSplits(s: State, actions: seq<Action>, k: nat)
    requires k < |actions|
    ensures Run(s, actions) == Run(Step(Run(s, actions[..k]), actions[k]), actions[k + 1..])
    decreases |actions|
  {
    if k == 0 {
      assert Run(s, actions[..0]) == s;
    } else {
      RunSplits(Step(s, actions[0]), actions[1..], k - 1);
      PrefixAfterStep(s, actions, k - 1);
      assert actions[1..][k..] == actions[k + 1..];
    }
  }

  /** For every run and every row of it that ends up reverted or unknown: a step keeps the channel the row's apply
    * had set, in spite of what the row says, if and only if it is a verify-confirm of the row that matched with the
    * timer running and whose answer was lost, or a reboot with the timer running. */
  lemma KeptExactlyWhenUnheard(now: int, apChannel: int, staChannel: int, actions: seq<Action>, k: nat, id: nat)
    requires k < |actions|
    requires var t := Run(Start(now, apChannel, staChannel), actions).commands;
      id < |t| && t[id].status in {Reverted, Unknown}
    ensures var s0 := Start(now, apChannel, staChannel);
      var d := Run(s0, actions).commands[id].device;
      var s := Run(s0, actions[..k]);
      Keeps(s, actions[k], d, id) <==>
        Trying(s, d, id) && (Unheard(s, actions[k], actions[k + 1..], d, id) || Reboots(s, actions[k], d))
  {
    var s0 := Start(now, apChannel, staChannel);
    var d := Run(s0, actions).commands[id].device;
    var s := Run(s0, actions[..k]);
    EveryReachableState(now, apChannel, staChannel, actions[..k]);
    KeepsExactlyWhen(s, actions[k], d, id);
    RunSplits(s0, actions, k);
    if Confirms(s, actions[k], d, id) {
      DecidedOtherwise(s, actions[k], actions[k + 1..], d, id);
    }
  }

  // ---------- It happens ----------

  const CONFIRMED_UNHEARD := Verify(true, Some(24), true, false)
  const NO_PEER := Verify(true, Some(24), false, true)

  /** A check tick for the one command of the examples. */
  lemma TickBegins(s: State)
    requires s.check.CheckIdle? && s.commands == [HOP.(status := Applied)]
    ensures Step(s, CheckBegins(30)) == s.(check := CheckRows([0], s.commands, s.now, 30))
  {
    assert IdsWith(s.commands, Applied) == [0] by {
      assert s.commands[..0] == [];
    }
  }

  lemma FirstTick(s: State)
    requires s.check == CheckRows([0], s.commands, 30 * SECOND, 30) && s.commands == [HOP.(status := Applied)]
    requires s.ap == SafeApply.Reload(SafeApply.Apply(SafeApply.Stage(SafeApply.Boot(16), 24), 0))
    ensures var s1 := CheckNext(s, CONFIRMED_UNHEARD);
      var s2 := CheckNext(s1, WriteVerdict);
      var s3 := CheckNext(s2, WriteVerdict);
      s3 == s.(check := CheckIdle, ap := SafeApply.Confirm(s.ap, 24))
  {
    var s1 := CheckNext(s, CONFIRMED_UNHEARD);
    assert s1.check == CheckAnswered([0], s.commands, 30 * SECOND, 30, None);
    assert Verdict(s.commands[0], 30 * SECOND, 30, None) == Applied;
    assert CheckNext(s1, WriteVerdict).check.rows == [];
  }

  lemma SecondTick(s: State)
    requires s.check == CheckRows([0], s.commands, 30 * SECOND, 30) && s.commands == [HOP.(status := Applied)]
    ensures var end := CheckNext(CheckNext(s, NO_PEER), WriteVerdict);
      end.commands == [HOP.(status := Reverted)] && end.ap == s.ap
  {
    var s1 := CheckNext(s, NO_PEER);
    assert s1.check == CheckAnswered([0], s.commands, 30 * SECOND, 30, Some(false)) && s1.ap == s.ap;
    assert Verdict(s.commands[0], 30 * SECOND, 30, Some(false)) == Reverted;
  }

  /** The first verify confirms and its reply is lost; the second finds no peer. The row says reverted, which rules
    * the channel out for good, and the device stays on it. */
  lemma RevertedWhileKept() returns (actions: seq<Action>)
    ensures var s := Run(Start(0, 16, 6), actions);
      && s.commands == [HOP.(status := Reverted)] && HOP.channel == 24
      && s.ap.rollback.Unarmed? && s.ap.committed == 24
  {
    var s0 := Start(0, 16, 6);
    actions := ReachApplied();
    RunThen(s0, actions, Tick(30 * SECOND));
    actions := actions + [Tick(30 * SECOND)];
    TickBegins(Run(s0, actions));
    RunThen(s0, actions, CheckBegins(30));
    actions := actions + [CheckBegins(30)];
    FirstTick(Run(s0, actions));
    RunThen(s0, actions, CheckStep(CONFIRMED_UNHEARD));
    actions := actions + [CheckStep(CONFIRMED_UNHEARD)];
    RunThen(s0, actions, CheckStep(WriteVerdict));
    actions := actions + [CheckStep(WriteVerdict)];
    RunThen(s0, actions, CheckStep(WriteVerdict));
    actions := actions + [CheckStep(WriteVerdict)];
    TickBegins(Run(s0, actions));
    RunThen(s0, actions, CheckBegins(30));
    actions := actions + [CheckBegins(30)];
    SecondTick(Run(s0, actions));
    RunThen(s0, actions, CheckStep(NO_PEER));
    actions := actions + [CheckStep(NO_PEER)];
    RunThen(s0, actions, CheckStep(WriteVerdict));
    actions := actions + [CheckStep(WriteVerdict)];
  }
}
