/** The on-device recovery of the HaLow radio (agent/wifi-agent.sh, verify_and_recover_radio): chip
  * resets, the two reboot escalations and their counters, which live in flash and survive reboots.
  * An invocation is a list of effects that take place one after the other, so a crash or power cut
  * at any point leaves a prefix of it, and inside a counter's write a prefix and a blank file. */
module RadioRecovery {
  import opened Wrappers

  const MAX_CHANNEL_REBOOTS: nat := 2
  const MAX_CORRUPTION_REBOOTS: nat := 4
  const MAX_ATTEMPTS: nat := 3

  // ---------- Observations, files and effects ----------

  /** What one health check reads: the live channel, whether the country matches when the check asks
    * (it asks only on a matching channel), and whether it matches when the branch asks again. */
  datatype Reading = Reading(live: Option<int>, countryAtCheck: bool, countryAtBranch: bool)

  /** Everything an invocation meets: the disable marker, the radio lock, whether the interface is
    * there at each look, the configured channel, and the three readings. */
  datatype World = World(disabled: bool, locked: bool, interface: seq<bool>, expected: Option<int>,
                         readings: seq<Reading>)
  {
    ghost predicate Complete() {
      |interface| == 6 && |readings| == MAX_ATTEMPTS
    }
  }

  /** A counter file. An absent file reads as Number(0). A file whose writing was cut short after its
    * truncation is there but blank: it compares unequal to 0, is not at any cap, and counts on from 0. */
  datatype CounterFile = Number(n: nat) | Blank

  function Value(f: CounterFile): nat {
    match f case Number(n) => n case Blank => 0
  }

  datatype Counters = Counters(reboots: CounterFile, corruption: CounterFile)

  datatype Path = ChannelPath | CorruptionPath

  datatype EventKind =
    | RadioRecovered | RadioUnhealthyDetected | CorruptedDefaultsDetected | ChipResetAttempted(attempt: nat)
    | OnDeviceReboot(path: Path, number: nat) | OnDeviceRecoveryExhausted(path: Path)

  datatype Effect =
    | Checked(attempt: nat, reading: Reading)
    | Confirmed                          // logged as being on its configured channel
    | Event(kind: EventKind)
    | ChipReset(attempt: nat)
    | WriteReboots(n: nat)
    | WriteCorruption(n: nat)
    | ClearReboots
    | ClearCorruption
    | Reboot(path: Path)
    | Tear(path: Path)                   // the write of the path's counter is cut short after the truncation

  function Perform(c: Counters, e: Effect): Counters {
    match e
    case WriteReboots(n) => c.(reboots := Number(n))
    case WriteCorruption(n) => c.(corruption := Number(n))
    case ClearReboots => c.(reboots := Number(0))
    case ClearCorruption => c.(corruption := Number(0))
    case Tear(ChannelPath) => c.(reboots := Blank)
    case Tear(CorruptionPath) => c.(corruption := Blank)
    case _ => c
  }

  predicate Healthy(r: Reading, expected: int) {
    r.live == Some(expected) && r.countryAtCheck
  }

  // ---------- What an invocation does ----------

  function Recovered(c: Counters): seq<Effect> {
    [Confirmed] + (if c != FRESH then [Event(RadioRecovered)] else []) +
    [ClearReboots, ClearCorruption]
  }

  function EscalateChannel(c: Counters): seq<Effect> {
    var count := Value(c.reboots);
    if count >= MAX_CHANNEL_REBOOTS then [Event(OnDeviceRecoveryExhausted(ChannelPath))]
    else [WriteReboots(count + 1), Event(OnDeviceReboot(ChannelPath, count + 1)), Reboot(ChannelPath)]
  }

  function EscalateCorruption(c: Counters): seq<Effect> {
    var count := Value(c.corruption);
    if count >= MAX_CORRUPTION_REBOOTS then [Event(OnDeviceRecoveryExhausted(CorruptionPath))]
    else [WriteCorruption(count + 1), Event(OnDeviceReboot(CorruptionPath, count + 1)), Reboot(CorruptionPath)]
  }

  function FailedAttempt(attempt: nat, r: Reading): seq<Effect> {
    [Checked(attempt, r)] + (if attempt == 1 then [Event(RadioUnhealthyDetected)] else []) +
    [Event(ChipResetAttempted(attempt)), ChipReset(attempt)]
  }

  function Attempt(c: Counters, attempt: nat, expected: int, r: Reading): seq<Effect> {
    if Healthy(r, expected) then [Checked(attempt, r)] + Recovered(c)
    else if !r.countryAtBranch then
      [Checked(attempt, r)] + (if attempt == 1 then [Event(RadioUnhealthyDetected)] else []) +
      [Event(CorruptedDefaultsDetected)] + EscalateCorruption(c)
    else FailedAttempt(attempt, r)
  }

  /** The attempts from the k-th on. The reset of the last attempt is not checked again. */
  function Attempts(c: Counters, expected: int, readings: seq<Reading>, k: nat): seq<Effect>
    requires k <= |readings| == MAX_ATTEMPTS
    decreases MAX_ATTEMPTS - k
  {
    if k == MAX_ATTEMPTS then EscalateChannel(c)
    else if Healthy(readings[k], expected) || !readings[k].countryAtBranch
    then Attempt(c, k + 1, expected, readings[k])
    else Attempt(c, k + 1, expected, readings[k]) + Attempts(c, expected, readings, k + 1)
  }

  /** Some check finds the radio healthy, and every check before it saw the right country. */
  predicate Heals(expected: int, readings: seq<Reading>, k: nat)
    requires k <= |readings| == MAX_ATTEMPTS
    decreases MAX_ATTEMPTS - k
  {
    k < MAX_ATTEMPTS &&
    (Healthy(readings[k], expected) || (readings[k].countryAtBranch && Heals(expected, readings, k + 1)))
  }

  function Invocation(c: Counters, w: World): seq<Effect>
    requires w.Complete()
  {
    if w.disabled || w.locked || true !in w.interface || w.expected.None? then []
    else Attempts(c, w.expected.value, w.readings, 0)
  }

  /** The counter files once the effects have taken place. */
  function After(c: Counters, effects: seq<Effect>): Counters {
    if effects == [] then c
    else Perform(After(c, effects[..|effects| - 1]), effects[|effects| - 1])
  }

  const FRESH := Counters(Number(0), Number(0))

  // ---------- The script ----------

  class Agent {
    var files: Counters
    var trace: seq<Effect>

    /** The files hold what the effects so far have left in them. */
    ghost predicate Valid()
      reads this
    {
      files == After(FRESH, trace)
    }

    constructor ()
      ensures Valid() && trace == []
    {
      files := FRESH;
      trace := [];
    }

    method Do(e: Effect)
      requires Valid()
      modifies this
      ensures Valid() && files == Perform(old(files), e) && trace == old(trace) + [e]
    {
      files := Perform(files, e);
      trace := trace + [e];
    }

    method RecoverFromCorruptedDefaults() returns (exitStatus: nat)
      requires Valid()
      modifies this
      ensures Valid() && trace == old(trace) + EscalateCorruption(old(files))
      ensures exitStatus == 1
    {
      var corruption := Value(files.corruption);
      if corruption >= MAX_CORRUPTION_REBOOTS {
        Do(Event(OnDeviceRecoveryExhausted(CorruptionPath)));
        return 1;
      }
      Do(WriteCorruption(corruption + 1));
      Do(Event(OnDeviceReboot(CorruptionPath, corruption + 1)));
      Do(Reboot(CorruptionPath));
      return 1;
    }

    method EscalateToReboot() returns (exitStatus: nat)
      requires Valid()
      modifies this
      ensures Valid() && trace == old(trace) + EscalateChannel(old(files))
      ensures exitStatus == 1
    {
      var reboots := Value(files.reboots);
      if reboots >= MAX_CHANNEL_REBOOTS {
        Do(Event(OnDeviceRecoveryExhausted(ChannelPath)));
        return 1;
      }
      Do(WriteReboots(reboots + 1));
      Do(Event(OnDeviceReboot(ChannelPath, reboots + 1)));
      Do(Reboot(ChannelPath));
      return 1;
    }

    method ReportRecovery()
      requires Valid()
      modifies this
      ensures Valid() && trace == old(trace) + Recovered(old(files))
      ensures files == FRESH
    {
      var before := files;
      Do(Confirmed);
      if before.reboots != Number(0) || before.corruption != Number(0) {
        Do(Event(RadioRecovered));
      }
      Do(ClearReboots);
      Do(ClearCorruption);
    }

    method WaitForInterface(looks: seq<bool>) returns (found: bool)
      requires |looks| == 6
      ensures found <==> true in looks
    {
      found := false;
      var wait := 0;
      while wait < 6 && !found
        invariant 0 <= wait <= 6
        invariant found ==> true in looks
        invariant !found ==> true !in looks[..wait]
      {
        found := looks[wait];
        wait := wait + 1;
      }
      assert looks[..6] == looks;
    }

    /** The invocation has exactly the effects of Invocation, and succeeds exactly when it is disabled
      * or found the radio healthy; then both counter files are gone. */
    method VerifyAndRecoverRadio(w: World) returns (exitStatus: nat)
      requires Valid() && w.Complete()
      modifies this
      ensures Valid() && trace == old(trace) + Invocation(old(files), w)
      ensures exitStatus == 0 <==>
        w.disabled || (!w.locked && true in w.interface && w.expected.Some? && Heals(w.expected.value, w.readings, 0))
      ensures exitStatus == 0 && !w.disabled ==> files.reboots == Number(0) && files.corruption == Number(0)
    {
      if w.disabled {
        return 0;
      }
      if w.locked {
        return 1;
      }
      var found := WaitForInterface(w.interface);
      if !found || w.expected.None? {
        return 1;
      }
      exitStatus := Recover(w.expected.value, w.readings);
    }

    method Recover(expected: int, readings: seq<Reading>) returns (exitStatus: nat)
      requires Valid() && |readings| == MAX_ATTEMPTS
      modifies this
      ensures Valid() && trace == old(trace) + Attempts(old(files), expected, readings, 0)
      ensures exitStatus == 0 <==> Heals(expected, readings, 0)
      ensures exitStatus == 0 ==> files == FRESH
    {
      var attempt := 1;
      while attempt <= MAX_ATTEMPTS
        invariant 1 <= attempt <= MAX_ATTEMPTS + 1
        invariant Valid() && files == old(files)
        invariant trace + Attempts(files, expected, readings, attempt - 1) ==
                  old(trace) + Attempts(files, expected, readings, 0)
        invariant Heals(expected, readings, 0) == Heals(expected, readings, attempt - 1)
      {
        ghost var t, k := trace, attempt - 1;
        var healthy, settled := TryOnce(attempt, expected, readings[attempt - 1]);
        if settled {
          return if healthy then 0 else 1;
        }
        Reassociate(t, Attempt(old(files), attempt, expected, readings[k]),
                    Attempts(old(files), expected, readings, k + 1));
        attempt := attempt + 1;
      }
      exitStatus := EscalateToReboot();
    }

    /** One turn of the loop: it settles the matter unless it ends in a chip reset. */
    method TryOnce(attempt: nat, expected: int, r: Reading) returns (healthy: bool, settled: bool)
      requires Valid() && 1 <= attempt <= MAX_ATTEMPTS
      modifies this
      ensures Valid() && healthy == Healthy(r, expected) && (settled <==> healthy || !r.countryAtBranch)
      ensures trace == old(trace) + Attempt(old(files), attempt, expected, r)
      ensures !settled ==> files == old(files)
      ensures healthy ==> files == FRESH
    {
      Do(Checked(attempt, r));
      healthy := Healthy(r, expected);
      if healthy {
        ReportRecovery();
        return true, true;
      }
      ReportUnhealthy(attempt);
      if !r.countryAtBranch {
        Do(Event(CorruptedDefaultsDetected));
        var _ := RecoverFromCorruptedDefaults();
        return false, true;
      }
      Do(Event(ChipResetAttempted(attempt)));
      Do(ChipReset(attempt));
      return false, false;
    }

    method ReportUnhealthy(attempt: nat)
      requires Valid()
      modifies this
      ensures Valid() && files == old(files)
      ensures trace == old(trace) + if attempt == 1 then [Event(RadioUnhealthyDetected)] else []
    {
      if attempt == 1 {
        Do(Event(RadioUnhealthyDetected));
      }
    }
  }

  lemma Reassociate(a: seq<Effect>, b: seq<Effect>, c: seq<Effect>)
    ensures a + (b + c) == (a + b) + c
  {
  }
}
