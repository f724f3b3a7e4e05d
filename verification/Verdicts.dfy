/** Over every run, what decides a command: its row ends as acked, reverted or unknown only by a verify-confirm of its
  * own, and as what that verify-confirm said (app/main.py, check_in_flight_commands). */
module Verdicts {
  import opened Wrappers
  import opened CommandTable
  import opened CommandProtocol
  import opened CommandInvariants
  import opened CommandTheorems
  import opened SafeApplyRuns

  /** What the check job hears when it asks about command c: nothing, or whether the agent saw the target live (and on
    * HaLow a peer). */
  function Heard(c: Command, m: CheckMove): Option<bool>
    requires m.Verify?
  {
    if !m.replied then None else Some(m.ran && m.live == Some(c.channel) && (c.device == AP ==> m.peer))
  }

  /** By its age and that answer, the row is to end as `status`. */
  predicate Due(s: State, id: nat, status: Status, answer: Option<bool>) {
    && !s.check.CheckIdle? && s.check.rows != [] && s.check.rows[0] == id < |s.commands|
    && var c := s.commands[id];
      c.status == Applied &&
      DecidedBy(c, c.(status := status), s.check.at - c.appliedAt, s.check.delay, answer)
  }

  /** The step asks about command `id`, past its verify delay, and hears what makes it `status`. */
  predicate Asks(s: State, a: Action, id: nat, status: Status) {
    && a.CheckStep? && a.checkMove.Verify? && s.check.CheckRows? && id < |s.commands|
    && Due(s, id, status, Heard(s.commands[id], a.checkMove))
    && s.check.at - s.commands[id].appliedAt >= s.check.delay * 1_000_000
  }

  /** The job holds that answer. */
  predicate Holds(s: State, id: nat, status: Status) {
    s.check.CheckAnswered? && Due(s, id, status, s.check.answer)
  }

  lemma AskedThenHeld(s: State, m: CheckMove, id: nat, status: Status)
    requires Inv(s) && s.check.CheckRows? && Holds(CheckNext(s, m), id, status)
    ensures Asks(s, CheckStep(m), id, status)
  {
    assert CheckBusy(s);
    SelectedRowsAgree(s, id);
    assert Moves(s.commands[id], s.commands[id].device);
  }

  lemma HeldComes(s: State, a: Action, id: nat, status: Status)
    requires Inv(s) && Holds(Step(s, a), id, status)
    ensures Holds(s, id, status) || Asks(s, a, id, status)
  {
    if a.CheckStep? {
      if s.check.CheckRows? {
        AskedThenHeld(s, a.checkMove, id, status);
      } else {
        HeldStays(s, a.checkMove, id, status);
      }
    } else {
      HeldElsewhere(s, a, id, status);
    }
  }

  lemma HeldStays(s: State, m: CheckMove, id: nat, status: Status)
    requires Inv(s) && !s.check.CheckRows? && Holds(CheckNext(s, m), id, status)
    ensures Holds(s, id, status)
  {
  }

  lemma HeldElsewhere(s: State, a: Action, id: nat, status: Status)
    requires Inv(s) && !a.CheckStep? && Holds(Step(s, a), id, status)
    ensures Holds(s, id, status)
  {
    StepKeepsInv(s, a);
    NotBegun(s, a);
    OtherStepsLeaveCheck(s, a);
    SelectedRowsAgree(s, id);
    SelectedRowsAgree(Step(s, a), id);
  }

  lemma NotBegun(s: State, a: Action)
    requires !a.CheckStep? && Step(s, a).check.CheckAnswered?
    ensures s.check.CheckAnswered? && a != Aborts(CheckJob)
  {
    match a
    case OptimizerStep(o) => OptimizerLeavesCheck(s, o);
    case _ =>
  }

  lemma OptimizerLeavesCheck(s: State, o: Observation)
    ensures OptimizerNext(s, o).check == s.check
  {
  }

  /** A channel row in flight. */
  predicate Open(c: Command) {
    c.param != Reboot && c.InFlight()
  }

  lemma ApplyNeverDecides(s: State, m: ApplyMove, id: nat)
    requires Inv(s) && id < |s.commands| && Open(s.commands[id]) && id < |ApplyNext(s, m).commands|
    ensures !Terminal(ApplyNext(s, m).commands[id].status)
  {
    if ApplyBusy(s) {
      assert s.apply.snap[s.apply.rows[0]] == s.commands[s.apply.rows[0]];
    }
  }

  lemma CheckDecides(s: State, m: CheckMove, id: nat)
    requires Inv(s) && id < |s.commands| && Open(s.commands[id]) && id < |CheckNext(s, m).commands|
    requires Terminal(CheckNext(s, m).commands[id].status)
    ensures m.WriteVerdict? && Holds(s, id, CheckNext(s, m).commands[id].status)
  {
    assert CheckBusy(s);
    SelectedRowsAgree(s, s.check.rows[0]);
  }

  /** In one step, a row is decided exactly by the check job writing down the answer it holds for it. */
  lemma DecidedByWriting(s: State, a: Action, id: nat)
    requires Inv(s) && id < |s.commands| && Open(s.commands[id]) && id < |Step(s, a).commands|
    requires Terminal(Step(s, a).commands[id].status)
    ensures a == CheckStep(WriteVerdict) && Holds(s, id, Step(s, a).commands[id].status)
  {
    match a
    case ApplyStep(m) => ApplyNeverDecides(s, m, id);
    case CheckStep(m) => CheckDecides(s, m, id);
    case _ =>
  }

  ghost predicate WasAsked(s: State, actions: seq<Action>, id: nat, status: Status) {
    exists k :: 0 <= k < |actions| && Asks(Run(s, actions[..k]), actions[k], id, status)
  }

  lemma AskedLater(s: State, actions: seq<Action>, id: nat, status: Status)
    requires actions != [] && WasAsked(Step(s, actions[0]), actions[1..], id, status)
    ensures WasAsked(s, actions, id, status)
  {
    var s', rest := Step(s, actions[0]), actions[1..];
    var k :| 0 <= k < |rest| && Asks(Run(s', rest[..k]), rest[k], id, status);
    PrefixAfterStep(s, actions, k);
    assert Asks(Run(s, actions[..k + 1]), actions[k + 1], id, status);
  }

  /** Rows are added in flight. */
  lemma AddedOpen(s: State, a: Action, id: nat)
    requires Inv(s) && |s.commands| <= id < |Step(s, a).commands|
    ensures Step(s, a).commands[id].status == Pending
  {
    match a
    case OptimizerStep(o) => OptimizerAddsPending(s, o, id);
    case ApplyStep(m) => StepEvolves(s, a);
    case CheckStep(m) => StepEvolves(s, a);
    case _ =>
  }

  lemma OptimizerAddsPending(s: State, o: Observation, id: nat)
    requires |s.commands| <= id < |OptimizerNext(s, o).commands|
    ensures OptimizerNext(s, o).commands[id].status == Pending
  {
  }

  /** One step earlier in the run. */
  lemma FromNext(s: State, actions: seq<Action>, id: nat, status: Status)
    requires Inv(s) && actions != []
    requires var s' := Step(s, actions[0]); Holds(s', id, status) || WasAsked(s', actions[1..], id, status)
    ensures Holds(s, id, status) || WasAsked(s, actions, id, status)
  {
    if Holds(Step(s, actions[0]), id, status) {
      HeldComes(s, actions[0], id, status);
      if Asks(s, actions[0], id, status) {
        assert actions[..0] == [];
        assert Asks(Run(s, actions[..0]), actions[0], id, status);
      }
    } else {
      AskedLater(s, actions, id, status);
    }
  }

  /** The first step decides the row. */
  lemma DecidedFirst(s: State, actions: seq<Action>, id: nat)
    requires Inv(s) && actions != [] && id < |s.commands| && s.commands[id].InFlight()
    requires id < |Step(s, actions[0]).commands| && Terminal(Step(s, actions[0]).commands[id].status)
    requires var t := Run(s, actions).commands; id < |t| && t[id].param != Reboot
    ensures Holds(s, id, Run(s, actions).commands[id].status)
  {
    StepKeepsInv(s, actions[0]);
    StepEvolves(s, actions[0]);
    TerminalIsFinal(Step(s, actions[0]), actions[1..], id);
    DecidedByWriting(s, actions[0], id);
  }

  lemma {:induction false} EndsFrom(s: State, actions: seq<Action>, id: nat)
    requires Inv(s) && (id < |s.commands| ==> s.commands[id].InFlight())
    requires var t := Run(s, actions).commands; id < |t| && t[id].param != Reboot && Terminal(t[id].status)
    ensures var status := Run(s, actions).commands[id].status;
      Holds(s, id, status) || WasAsked(s, actions, id, status)
    decreases |actions|
  {
    if actions != [] {
      var s' := Step(s, actions[0]);
      StepKeepsInv(s, actions[0]);
      if id < |s.commands| && id < |s'.commands| && Terminal(s'.commands[id].status) {
        DecidedFirst(s, actions, id);
      } else {
        if |s.commands| <= id < |s'.commands| {
          AddedOpen(s, actions[0], id);
        }
        EndsFrom(s', actions[1..], id);
        FromNext(s, actions, id, Run(s, actions).commands[id].status);
      }
    }
  }

  /** For every run and every channel row of it that ends acked, reverted or unknown: some step of the run asked the
    * device about that command past its verify delay, and by what it heard the row had to end so. Acked only after a
    * matching live channel (and peer), reverted only after an answer that it does not match, unknown only without an
    * answer past the time to live and 15 seconds. */
  lemma RowsEndAsHeard(now: int, apChannel: int, staChannel: int, actions: seq<Action>, id: nat)
    requires var t := Run(Start(now, apChannel, staChannel), actions).commands;
      id < |t| && t[id].param != Reboot && Terminal(t[id].status)
    ensures var s0 := Start(now, apChannel, staChannel);
      WasAsked(s0, actions, id, Run(s0, actions).commands[id].status)
  {
    EveryReachableState(now, apChannel, staChannel, []);
    EndsFrom(Start(now, apChannel, staChannel), actions, id);
  }
}
