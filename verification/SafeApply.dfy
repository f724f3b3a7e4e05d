/** One device's persistent channel configuration under OpenWrt's apply-with-rollback, as
  * agent/wifi-agent.sh drives it. Assumption taken from rpcd: an apply fails while a rollback
  * timer is armed. */
module SafeApply {
  import opened Wrappers

  /** Armed(previous, owner): the committed value replaced `previous` on behalf of command `owner`,
    * and comes back to it unless confirmed. */
  datatype Rollback = Unarmed | Armed(previous: int, owner: nat)

  /** `committed` and `staged` are the channel in flash and in uci's staging area; `loaded` is the
    * channel the radio was last told to load. The last three fields record history: the channel the
    * device started with, the targets a verify-confirm has seen live while the timer was armed, and
    * the channels made permanent by a power cycle that cut an armed window short. */
  datatype Agent = Agent(committed: int, staged: Option<int>, rollback: Rollback, loaded: int,
                         initial: int, verified: set<int>, stranded: set<int>)

  function Boot(channel: int): Agent {
    Agent(channel, None, Unarmed, channel, channel, {}, {})
  }

  predicate IsPlausibleChannel(channel: int) {
    1 <= channel <= 200
  }

  /** `uci set` */
  function Stage(a: Agent, channel: int): Agent {
    a.(staged := Some(channel))
  }

  /** `uci apply` with rollback, succeeding */
  function Apply(a: Agent, owner: nat): Agent
    requires a.staged.Some? && a.rollback.Unarmed?
  {
    a.(committed := a.staged.value, staged := None, rollback := Armed(a.committed, owner))
  }

  /** `uci revert wireless`, after a failing apply */
  function Revert(a: Agent): Agent {
    a.(staged := None)
  }

  /** The network reload that follows a successful apply */
  function Reload(a: Agent): Agent {
    a.(loaded := a.committed)
  }

  function FireTimer(a: Agent): Agent {
    match a.rollback
    case Unarmed => a
    case Armed(previous, _) => a.(committed := previous, rollback := Unarmed)
  }

  /** `uci confirm` once the live channel was seen at `target`; a no-op when nothing is armed. */
  function Confirm(a: Agent, target: int): Agent {
    if a.rollback.Unarmed? then a else a.(rollback := Unarmed, verified := a.verified + {target})
  }

  /** A reboot: the staging area and the timer live in memory, the committed value does not, and the radio comes up
    * on it. */
  function PowerCycle(a: Agent): Agent {
    var booted := a.(staged := None, loaded := a.committed);
    if a.rollback.Unarmed? then booted else booted.(rollback := Unarmed, stranded := a.stranded + {a.committed})
  }

  /** verify-confirm succeeds when the live channel is the target and, on HaLow, a peer is there. */
  predicate Matches(target: int, needsPeer: bool, live: Option<int>, peer: bool) {
    live == Some(target) && (needsPeer ==> peer)
  }

  /** The channels it is safe to be left on for good. */
  function Trusted(a: Agent): set<int> {
    {a.initial} + a.verified
  }

  /** Whenever no timer is armed the committed channel is a trusted one, unless a power cycle
    * stranded it; and an armed timer leads back to such a channel. */
  predicate Safe(a: Agent) {
    match a.rollback
    case Unarmed => a.committed in Trusted(a) + a.stranded
    case Armed(previous, _) => previous in Trusted(a) + a.stranded
  }

  // ---------- The uninterrupted scripts ----------

  /** The agent's channel configuration as cmd_apply and cmd_verify_confirm change it, run without
    * interruption. CommandProtocol interleaves the same steps with timers, reboots and the server. */
  class Device {
    var state: Agent

    constructor (channel: int)
      ensures state == Boot(channel)
    {
      state := Boot(channel);
    }

    /** `engages` says whether ubus accepts the apply. Exit status 0 means the timer is armed on the
      * target; every other exit leaves the committed channel, the timer and the radio alone, and nothing staged once
      * the script has got as far as staging. */
    method CmdApply(command: nat, target: Option<int>, engages: bool) returns (exitStatus: nat)
      modifies this
      ensures exitStatus == 0 <==>
        target.Some? && 1 <= target.value <= 200 && engages && old(state).rollback.Unarmed?
      ensures exitStatus == 0 ==>
        state == old(state).(committed := target.value, staged := None, loaded := target.value,
                             rollback := Armed(old(state).committed, command))
      ensures exitStatus != 0 ==>
        state == if target.Some? && 1 <= target.value <= 200 then old(state).(staged := None) else old(state)
    {
      if target.None? || !IsPlausibleChannel(target.value) {
        return 1;
      }
      state := Stage(state, target.value);
      if !engages || state.rollback.Armed? {
        state := Revert(state);
        return 1;
      }
      state := Apply(state, command);
      state := Reload(state);
      return 0;
    }

    /** Prints "confirmed" (exit status 0) on a match whether or not a timer is still armed; only
      * an armed timer makes that final, and a mismatch changes nothing at all. */
    method CmdVerifyConfirm(target: int, needsPeer: bool, live: Option<int>, peer: bool) returns (exitStatus: nat)
      modifies this
      ensures exitStatus == 0 <==> Matches(target, needsPeer, live, peer)
      ensures exitStatus == 0 && old(state).rollback.Armed? ==>
        state == old(state).(rollback := Unarmed, verified := old(state).verified + {target})
      ensures exitStatus != 0 || old(state).rollback.Unarmed? ==> state == old(state)
    {
      if live.None? || live.value != target {
        return 1;
      }
      if needsPeer && !peer {
        return 1;
      }
      state := Confirm(state, target);
      return 0;
    }
  }

  // ---------- What each step keeps ----------

  /** Staging, failing, firing and power-cycling keep Safe outright; applying keeps it because the
    * replaced channel was safe; confirming keeps it exactly when the channel seen live is the one
    * committed, or the committed one was safe already. */
  lemma StepsKeepSafe(a: Agent, channel: int, owner: nat)
    requires Safe(a)
    ensures Safe(Stage(a, channel)) && Safe(Revert(a)) && Safe(Reload(a)) && Safe(FireTimer(a)) && Safe(PowerCycle(a))
    ensures a.staged.Some? && a.rollback.Unarmed? ==> Safe(Apply(a, owner))
    ensures Safe(Confirm(a, channel)) <==>
      a.rollback.Unarmed? || channel == a.committed || a.committed in Trusted(a) + a.stranded
  {
  }

  /** A power cycle inside an armed window leaves the device on an untrusted channel exactly when
    * the pending target is not already a trusted one. */
  lemma PowerCycleInWindow(a: Agent)
    requires a.rollback.Armed?
    ensures PowerCycle(a).rollback.Unarmed? && PowerCycle(a).staged == None
    ensures PowerCycle(a).loaded == PowerCycle(a).committed == a.committed
    ensures PowerCycle(a).committed in Trusted(PowerCycle(a)) <==> a.committed in Trusted(a)
    ensures PowerCycle(a).stranded == a.stranded <==> a.committed in a.stranded
  {
    assert a.committed in PowerCycle(a).stranded;
  }
}
