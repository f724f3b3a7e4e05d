# WiFi optimizer: a verified model of its control loops

The system keeps a two-device 802.11ah (HaLow) bridge alive. A server polls the devices over SSH, stores
telemetry, decides channel and bandwidth changes, applies them with a rollback timer and verifies them; the
devices watch and recover their own radios and keep an event log the server ingests. Most of what makes this
hard is not in any one function: jobs interrupt each other at every await, UPDATEs name nothing but a row id,
replies get lost, timers fire, devices reboot in the middle of things.

The project models that as state machines over database rows and on-device files, and proves what holds over
every run. Code that changes rows or files in a loop is a class whose methods are proved against a
specification function; properties are then proved of that function over all inputs and all runs.

| file | what it holds |
|---|---|
| `CommandTable`, `CommandProtocol` | the `commands` table; the optimizer, apply and check jobs step by step, with timers, reboots, lost replies and aborted jobs |
| `CommandInvariants`, `CommandTheorems` | the inductive invariant; single writer, status order, bounded failure, command rate, ticks that decide |
| `SafeApply`, `SafeApplyRuns`, `LostReplies` | OpenWrt's apply-with-rollback as the agent drives it; what a device can be left on for good; rows that say otherwise |
| `CommandJobs`, `JobRuns` | the apply and check jobs as loops, and that the step-by-step jobs refine them |
| `Verdicts` | over every run, what makes a row acked, reverted or unknown |
| `OptimizerPass`, `OptimizerTargets` | one optimizer pass as the code it is, what it may and must command, that the step-by-step pass refines it, and exactly which channel it commands |
| `Optimizer`, `HalowChannelPlan` | round-robin channel choice, window averages, the channel plan |
| `Watchdog` | the server's radio watchdog over timed runs of readings |
| `RadioRecovery`, `RebootBound`, `RebootTears`, `RecoveryEnds`, `RadioLock` | the on-device recovery, its reboot bound under crashes and torn writes, how an outage ends, the radio lock |
| `EventLog`, `EventLines`, `EventDetails`, `Json`, `EventIngestion` | the device event log, its hand-written JSON, exactly-once ingestion |
| `Liveness`, `LivenessJobs` | offline and back-online alerts with interleaved jobs, and the same jobs as the loops they are |
| `RadioCounters`, `Uptime`, `Backups`, `ChannelEvents`, `Charts` | counter rates, uptime, backup history, channel-change replay, chart size |

`dafny verify dfyconfig.toml` checks everything.

## Where the code and its words differ

The model follows the code.

- README.md:372-374 lists a command that could not be confirmed in time among the reverted ones; the code marks it
  `unknown` (app/main.py:633-648), and an `unknown` command does not rule its channel out.
- app/main.py:215-217 says a counter reset gives no rate; lines 239 and 244 give 0.0 (`RetriesExactlyWhenRead`,
  `ThroughputExactlyWhenRead`).
- `verify-confirm` prints "confirmed" when the timer has already fired (agent/wifi-agent.sh:740-741), so a row can
  be acked for a change that was rolled back (`AckedAfterRollback`).

Properties that fail as first thought of, with the input that breaks them and the exact condition that saves them:

- The channel is always a verified one when no timer runs: lost exactly by a reboot inside an armed window whose
  target is not already a trusted channel (`RebootInWindowStrands`, `TrustedExactlyWithoutUntrustedCut`).
- A reverted or unknown command leaves nothing behind: its channel is kept exactly by a verify that matched with the
  timer running and whose answer was lost, or by a reboot with the timer running (`RevertedWhileKept`,
  `KeptExactlyWhenUnheard`); a reverted one is never tried there again all the same (`FailedChannelIsNeverRetried`).
- An "offline" alert is about a device that is stale: exactly when no ingest has stamped it between the check's SELECT
  and its UPDATE (`OfflineThoughSeen`, `FlagsSeenDeviceExactlyWhen`).
- Offline and back-online alerts alternate: the changes of the flag always do, the alerts exactly when none is sent
  out of turn. As long as no job ends owing a report, that means when none overtakes another
  (`BackOnlineBeforeOffline`); a job that does can leave "back online" alone (`OutageNeverReported`), though it need
  not break the alternation (`WholeOutageLost`, `AlertsAlternateExactlyWhen`, `OutOfTurnExactlyWhen`).
- The on-device reboot caps: exactly as long as no power cut falls between truncating and writing a counter file;
  each such cut adds one channel-path or three corrupted-defaults reboots (`BoundIsReached`,
  `CapHoldsExactlyWithoutTears`).
- Replaying channel events gives the channel: exactly when no change hides behind a null reading
  (`ChangeBehindNullIsLost`, `ReplayTracksExactlyWhen`).
- Every event arrives: exactly while at most 50 fall between two committed polls (`CompleteExactlyWhenKeepsUp`); the
  first commit beyond that loses an event for good (`FallingBehindLosesEvents`).
- A logged message reads back: exactly when it has no control character (`SedReadsBackExactlyWhen`).
- The agent's own events read back: exactly when the configured channel each carries is a JSON number, and not, say,
  `auto` (`EventDetails.LogReadsBackExactlyWhen`, `ChannelNumbersAreNumeric`).
- The lock excludes: holds of up to a given length always exclude exactly when that length is at most 300 seconds
  (`OverlongHoldBreaksExclusion`, `ExcludesExactlyWhen`).

## Model

| member | source | states |
|---|---|---|
| CommandInvariants.StepKeepsInv | app/main.py:534-651 | every single step of optimizer, apply job, check job, rollback timer, reboot or abort keeps the invariant: one in-flight channel command per device, distinct failed channels, no UPDATE on a stale row, an armed timer owned by the one command that can be applied |
| CommandTheorems.EveryReachableState | app/main.py:534-651 | every state reachable from a fresh database, under any interleaving at await granularity, satisfies that invariant |
| CommandTheorems.SingleWriter | app/optimizer.py:127-150 | in every reachable state at most one command per device and channel parameter is pending or applied |
| CommandTheorems.StepEvolves | app/main.py:564-651 | statuses move only pending, applied, then acked, reverted or unknown (a reboot: pending, acked), rows are never lost or re-keyed, although UPDATEs name only the id |
| CommandTheorems.TerminalIsFinal | app/main.py:621-648 | a row that is acked, reverted or unknown never changes again, whatever the run does |
| CommandTheorems.KeysArePermanent | app/optimizer.py:108-115 | no run removes a row or changes its device, parameter, target or creation time |
| CommandTheorems.CheckTickDecides | app/main.py:587-651 | if the tick does not find the row's own target row missing (others' may be), an applied row selected by a tick once it is past the verify delay and ttl + 15 s is, at any later point of the run, still waiting in that tick or terminal |
| CommandTheorems.TickLeavesNothingOverdue | app/main.py:587-651 | when such a tick is over, the rows that were overdue at its start are terminal |
| Verdicts.DecidedByWriting | app/main.py:619-648 | in every reachable state one step decides a channel row only as the check job writing the status that the row's age and the answer it holds call for |
| Verdicts.RowsEndAsHeard | app/main.py:604-651 | over every run, a channel row that ended acked, reverted or unknown was asked about at some step past its verify delay, and heard there a match (acked), a mismatch (reverted), or nothing past ttl + 15 s (unknown) |
| CommandTheorems.FailedChannelIsNeverRetried | app/optimizer.py:88-103 | a channel that reverted once on a device is never commanded there again, so an exhausted list gets no further command |
| CommandTheorems.BoundedFailure | app/optimizer.py:175-190 | over a whole run at most 42 HaLow commands and 3 2.4GHz commands become reverted |
| CommandTheorems.CommandRate | app/optimizer.py:80-85 | with the cooldown setting at least C throughout, n commands of a device span at least (n - 1) C, so a window of length T holds at most floor(T/C) + 1 |
| CommandTable.LastCreated | app/optimizer.py:81-84 | the newest creation time of the key, None exactly when the key has no command |
| CommandTable.CooldownCoversEveryCommand | app/optimizer.py:80-85 | looking at the newest command only, the cooldown check speaks for all of them |
| CommandTable.IdsWith | app/main.py:588-595 | all ids of a status, and only those, oldest first |
| CommandJobs.Jobs.CheckInFlight | app/main.py:579-651 | an uninterrupted check tick decides every applied row of a role with a target by its age and answer: acked exactly past the verify delay and confirmed, reverted exactly past it and refused, unknown exactly past it and past ttl + 15 s and unanswered, else applied as before; no other row changes, and decisions are reported in row order |
| CommandJobs.Jobs.CheckRow | app/main.py:604-651 | one row's turn, decided by age and answer in the same way, with its report and nothing else |
| CommandJobs.Jobs.ApplyPending | app/main.py:534-576 | an uninterrupted apply tick moves exactly the pending rows of roles with a target whose call succeeded to applied, reboots to acked whatever their call did, stamped with the tick's time; nothing else of any row changes |
| CommandJobs.ReportedExactly | app/main.py:621-648 | a decision is reported exactly when a selected row changes status, once, in order |
| CommandJobs.NothingOverdueStays | app/main.py:604-651 | a row stays applied exactly if it is younger than the verify delay, or unanswered and younger than ttl + 15 s |
| JobRuns.CheckTickRefinesLoop | app/main.py:579-651 | the step-by-step check job with nothing between its steps ends with the table the loop leaves |
| JobRuns.ApplyTickRefinesLoop | app/main.py:534-576 | so does the step-by-step apply job, in every reachable state whose devices to be applied to have no timer running |
| OptimizerPass.Job.EvaluateHalowLink | app/optimizer.py:127-248 | the evaluation inserts exactly the decided command, or raises, leaving the table alone |
| OptimizerPass.Job.EvaluateWifi24Link | app/optimizer.py:286-353 | the same for the 2.4GHz radio |
| OptimizerPass.Job.RunOptimizerPass | app/optimizer.py:23-48 | the kill switch, the toggles, and a raise that ends the pass |
| OptimizerPass.DegradedLinkKeepsItsBandwidth | app/optimizer.py:151-202 | a degraded link is never widened or narrowed; it is cycled, at its own bandwidth, if and only if cycling is on, nothing forbids a command and some channel there has not failed |
| OptimizerPass.HealthyLinkMovesOneTier | app/optimizer.py:204-248 | a healthy link widens one tier if and only if its use calls for it and that tier has a non-failed channel; only otherwise it narrows one tier, under the mirrored condition |
| OptimizerPass.OddBandwidthRaisesExactlyWhen | app/optimizer.py:211-236 | a bandwidth outside the tiers raises if and only if a use crosses its threshold on a healthy link, and never commands anything |
| OptimizerPass.PickSucceedsExactlyWhenOpen | app/optimizer.py:251-264 | a tier offers a channel exactly when it has a non-failed one, and then one of its own |
| OptimizerPass.PassIsCautious | app/optimizer.py:127-150 | a pass adds at most one command per device, to a device with none in flight and none younger than the cooldown, for a channel that never reverted there |
| OptimizerTargets.OnlyRevertedRowsCount | app/optimizer.py:88-103 | a channel is ruled out if and only if a row of that device and parameter carries it with status reverted: acked, unknown and in-flight rows rule nothing out |
| OptimizerTargets.HalowMovesExactlyTo | app/optimizer.py:127-248 | the HaLow evaluation commands channel c if and only if the link is known, none of its rows is in flight or younger than the cooldown, and c is: on a degraded link with cycling on, the first channel round from the current one that no reverted row carries; on a healthy one with bandwidth changes on, the first such channel of the wider tier if the use calls for it, and only otherwise of the narrower |
| OptimizerTargets.WifiMovesExactlyTo | app/optimizer.py:286-353 | the 2.4GHz evaluation commands c if and only if the radio is known and degraded, none of its rows is in flight or younger than the cooldown, and c is the first of 1, 6, 11 round from the current one that no reverted row carries |
| OptimizerTargets.PassInsertsExactly | app/optimizer.py:23-48 | a pass appends exactly the HaLow row (120 s to live) and then the 2.4GHz row (90 s) that are decided and switched on, the second not after a raise |
| OptimizerPass.StepsRefinePass | app/optimizer.py:127-353 | the step-by-step optimizer with nothing between its steps leaves exactly the pass's table and changes nothing else |
| SafeApply.Device.CmdApply | agent/wifi-agent.sh:628-698 | exit 0 exactly for a target from 1 to 200 whose apply engages with no timer armed, and then the target is committed and loaded with the timer armed over the old channel; any other exit leaves flash, timer and radio alone and, past the plausibility check, nothing staged |
| SafeApply.Device.CmdVerifyConfirm | agent/wifi-agent.sh:707-742 | confirms exactly on a live match (with a peer on HaLow); only a timer still armed makes that final; a mismatch changes nothing |
| SafeApply.StepsKeepSafe | agent/wifi-agent.sh:642-668 | staging, failing, reloading, firing and applying keep "committed or fallback channel is trusted"; confirming keeps it exactly when it confirms what is committed or that was trusted already |
| SafeApply.PowerCycleInWindow | agent/wifi-agent.sh:642-649 | a power cycle in an armed window comes up on the committed channel with no timer and nothing staged, which leaves an untrusted channel exactly when the pending target was not already trusted |
| SafeApplyRuns.SafeApplyAlways | agent/wifi-agent.sh:642-742 | in every run without a reboot in an armed window of an untrusted target, whenever no timer is armed the committed channel is the initial one or one that a verify-confirm run for an applied command of that device and target saw live while the timer armed for it was running |
| SafeApplyRuns.VerifiedWasSeen | agent/wifi-agent.sh:700-742 | a channel on record as verified was sighted at some step of the run by the check job: its head row an applied command of the device for that channel past its verify delay, the channel live, with a peer on HaLow, the timer running |
| SafeApplyRuns.NothingStranded | agent/wifi-agent.sh:642-649 | a run that cuts no window short strands no channel |
| SafeApplyRuns.GuaranteeLostExactlyByRebootInWindow | agent/wifi-agent.sh:642-649 | as long as all that reboots have made permanent is trusted, one step loses the guarantee if and only if it reboots the device in an armed window whose target is untrusted |
| SafeApplyRuns.TrustedExactlyWithoutUntrustedCut | agent/wifi-agent.sh:642-742 | over every run, at no point is the device on an untrusted channel without a timer if and only if no step reboots it in an armed window of an untrusted target |
| SafeApplyRuns.RebootInWindowStrands | agent/wifi-agent.sh:642-649 | a concrete run in which that happens |
| SafeApplyRuns.FailedApplyChangesNothing | agent/wifi-agent.sh:651-668 | an apply that does not engage leaves committed channel, timer and radio of every device unchanged |
| SafeApplyRuns.ConfirmedMeansKept | agent/wifi-agent.sh:735-742 | after a successful verify the device keeps the target if and only if its timer was still running or the target was committed already |
| SafeApplyRuns.AckedAfterRollback | agent/wifi-agent.sh:740-741 | a concrete run that acks a command whose change was rolled back: the timer of 120 s fires after 121 s, the verify comes then |
| LostReplies.KeepsExactlyWhen | agent/wifi-agent.sh:735-742 | in every reachable state a window ends with the new channel in place if and only if the step is a matching verify-confirm of the command that owns it, or a reboot |
| LostReplies.KeptExactlyWhenUnheard | app/main.py:608-642 | for every run and row that ends reverted or unknown: a step keeps the row's channel if and only if it is a verify of that row that matched with the timer running and whose answer was lost (the reply, or the job before writing it), or a reboot with the timer running |
| LostReplies.RevertedWhileKept | app/main.py:619-637 | a concrete run: the first verify confirms unheard, the next finds no peer; the row is reverted, the device stays on the channel |
| Optimizer.FirstAllowed | app/optimizer.py:181-184 | a candidate that has not failed; None exactly when all have |
| Optimizer.RotationWalksModulo | app/optimizer.py:180-182 | the k-th candidate is the one at (start + k + 1) mod length |
| Optimizer.CyclePickIsNearest | app/optimizer.py:180-184 | the pick is the first non-failed channel going round from the current one; None exactly when all have failed |
| Optimizer.CurrentOnlyAsLastResort | app/optimizer.py:334-338 | the current channel is picked exactly when it has not failed and every other one has |
| Optimizer.RoundRobinCovers | app/optimizer.py:180-184 | with a fixed failed set, k picks over k non-failed channels visit each exactly once wherever they start, and end at the start if and only if it was one of them (or there is none) |
| Optimizer.AverageIsWithinReadings | app/optimizer.py:65-77 | an average exists exactly from three readings on, and lies between any bounds of the readings |
| Optimizer.NullRowsDoNotCount | app/optimizer.py:74-77 | rows without a reading change no average |
| Optimizer.AverageFollowsEachReading | app/optimizer.py:74-77 | raising any one of n >= 3 readings by d raises the average by d / n |
| Optimizer.EqualReadingsAverage | app/optimizer.py:74-77 | equal readings average to themselves from three on, and fewer to nothing; with the row above that fixes every average |
| Optimizer.UtilizationExactlyWhen | app/optimizer.py:267-283 | a utilization exists exactly from three rows with a throughput and a nonzero rate on, and lies between any bounds of their ratios |
| Optimizer.UtilizationFollowsEachRow | app/optimizer.py:276-283 | raising the throughput of one of n >= 3 usable rows by d raises the utilization by (d / its rate) / n |
| Optimizer.EqualRatiosAverage | app/optimizer.py:276-283 | equal ratios give that ratio from three usable rows on, and fewer nothing |
| HalowChannelPlan.BandwidthIsDetermined | app/halow_channel_plan.py:52-65 | a channel number belongs to one bandwidth only |
| HalowChannelPlan.ListsAreDistinct | app/halow_channel_plan.py:52-57 | no list offers a channel twice |
| HalowChannelPlan.ListsStepThroughTheBand | app/halow_channel_plan.py:52-61 | the lists are exactly 3 to 49 in steps of 2, 6 to 46 in 4, 16 to 40 in 8 and 12 to 44 in 16, none at other bandwidths; 2.4GHz has 1, 6 and 11 |
| HalowChannelPlan.PlanSize | app/halow_channel_plan.py:52-61 | the plan has 42 channels, all of them plausible to the agent |
| Watchdog.WatchedDevice.MaybeAutoRecoverRadio | app/main.py:397-484 | streak, cooldown, cap, exhausted alert and counted attempt in the code's order; nothing for an unknown device |
| Watchdog.WatchedDevice.ResetAutoRecovery | app/main.py:473-507 | the streak always ends; counters and flag are cleared and reported when there was an attempt |
| Watchdog.WatchedDevice.Handle | app/main.py:525-531 | down, up and unknown readings lead to recovery, reset and nothing |
| Watchdog.StreakCounts | app/main.py:400-403 | the stored streak is the number of down readings since the last up reading: reboots and unknown readings do not touch it |
| Watchdog.RebootNeedsThreeDowns | app/main.py:404-410 | every reboot comes on a down reading preceded by two others with no up reading among or after them |
| Watchdog.RunSpacesReboots | app/main.py:411-414 | any two reboots of a run are at least 900 s apart, across recoveries too |
| Watchdog.RebootsInWindow | app/main.py:411-414 | a window of T holds at most floor(T / 900 s) + 1 reboots |
| Watchdog.LogHasShape | app/main.py:415-507 | every run's report log is a word of (reboot 1..k, alert only after the third, recovery naming k)*, and the row's counters are its state |
| Watchdog.AlertInContext | app/main.py:422-446 | an exhausted alert directly follows reboots 1, 2 and 3, and the next report after it is the recovery, naming 3 attempts |
| Watchdog.AlertsAreApart | app/main.py:422-446 | between two alerts lie the first one's recovery and three reboots |
| Watchdog.AlertWaits | app/main.py:411-433 | each alert comes at least 900 s after the third reboot was stored |
| Watchdog.AtMostThreePerOutage | app/main.py:415-456 | at most three reboots fall between two up readings |
| Watchdog.SilentExactlyWhen | app/main.py:397-446 | a down reading is not reported if and only if it is not yet the third in its streak, or a reboot was under 900 s ago, or the alert is out |
| Watchdog.ReportsExactly | app/main.py:397-507 | what a poll reports, told by readings and earlier reports alone: a down reading that is not silent, the next reboot or, after three, the alert; an up reading, the recovery with the number of reboots if there were any; after it the next outage counts from zero |
| RadioRecovery.Agent.VerifyAndRecoverRadio | agent/wifi-agent.sh:300-490 | the invocation has exactly the specified effects in order; it succeeds exactly when disabled or some check found the radio healthy before any saw a wrong country, and then both counter files are gone unless it was disabled |
| RadioRecovery.Agent.Recover | agent/wifi-agent.sh:365-490 | the three checks and resets and the escalation after them |
| RadioRecovery.Agent.RecoverFromCorruptedDefaults | agent/wifi-agent.sh:239-258 | counter file written before the reboot, capped at four |
| RadioRecovery.Agent.EscalateToReboot | agent/wifi-agent.sh:472-489 | counter file written before the reboot, capped at two |
| RadioRecovery.Agent.WaitForInterface | agent/wifi-agent.sh:350-361 | finds the interface exactly if one of six looks sees it |
| RecoveryEnds.InvocationUnrolled | agent/wifi-agent.sh:335-490 | an invocation's effects spelled out: nothing when disabled, locked or without interface or channel; else each of three checks ends it healthy (report, both files removed), ends it on a wrong country (at most four reboots), or leads to a chip reset; after the third, at most two reboots |
| RecoveryEnds.ConfirmationRemovesFiles | agent/wifi-agent.sh:369-376 | from any files whatever, an uncut invocation that finds the radio healthy leaves both counters at zero |
| RecoveryEnds.RecoveryRestoresTheCap | agent/wifi-agent.sh:369-376 | whatever happened before, after such an invocation a run without another confirmation reaches two channel-path or four corrupted-defaults reboots again |
| RebootBound.HistoryDisciplined | agent/wifi-agent.sh:336-375 | over any invocations, each cut short anywhere, inside a counter's write too, every reboot since the last healthy confirmation is covered by its counter file and the torn writes, counters are written only below their caps and never pass them |
| RebootBound.RebootsAreBounded | agent/wifi-agent.sh:461-490 | between two healthy confirmations at most 2 channel-path reboots plus one per torn write of their counter, and at most 4 corrupted-defaults reboots plus three per torn write of theirs, for any readings and crashes |
| RebootTears.BoundIsReached | agent/wifi-agent.sh:239-258 | for either path and every number of torn writes a run that reaches that bound |
| RebootTears.CapHoldsExactlyWithoutTears | agent/wifi-agent.sh:472-482 | the caps of 2 and 4 hold over all runs if and only if no write of their counter is torn |
| RebootBound.ChannelRebootExactlyWhen | agent/wifi-agent.sh:365-490 | a channel-path reboot happens if and only if three checks failed with the right country and fewer than two are on file; each check was followed by its chip reset |
| RebootBound.CorruptionRebootExactlyWhen | agent/wifi-agent.sh:398-403 | a corrupted-defaults reboot happens if and only if a check saw a wrong country after only failed, right-country ones and fewer than four are on file |
| RadioLock.MutualExclusion | agent/wifi-agent.sh:143-167 | for any number of processes and any interleaving in which nobody holds for over 300 s, at most one is between mkdir and release |
| RadioLock.OnlyTheHolderRemoves | agent/wifi-agent.sh:143-167 | in such runs only the process inside removes the directory |
| RadioLock.ReleasedLockIsFree | agent/wifi-agent.sh:143-167 | in such runs a release by the process inside leaves nobody inside and the lock free, and whoever tries next gets it |
| RadioLock.GivingUpTakesThirtyTries | agent/wifi-agent.sh:153-157 | a process that gave up failed thirty times, and whatever it does leaves lock and other processes alone |
| RadioLock.OverlongHoldBreaksExclusion | agent/wifi-agent.sh:145-152 | for every hold over 300 s and any number of processes from two on, a run with no longer hold that ends with two inside |
| RadioLock.ExcludesExactlyWhen | agent/wifi-agent.sh:140-167 | runs whose holds stay within a limit always exclude if and only if the limit is at most 300 s |
| EventLog.Log.RecordEvent | agent/wifi-agent.sh:93-110 | the event gets the next number and the file holds the last 50 |
| EventLog.LogWindow | agent/wifi-agent.sh:105-109 | the file is the last min(50, n) of n events, numbered in strictly increasing order without a gap |
| EventIngestion.DeviceEvents.RecordEvent | app/events.py:24-31 | the row is appended unless it is a device event whose key is already there |
| EventIngestion.DeviceEvents.IngestDeviceEvents | app/main.py:317-329 | the whole log is folded through insert-if-absent |
| EventIngestion.IngestKeepsRows | db/migrations/017_add_device_events.sql:27 | ingestion removes nothing, keeps keys unique and leaves every line's key in the table |
| EventIngestion.IngestIsIdempotent | app/main.py:317-324 | ingesting the same log again changes nothing |
| EventIngestion.ExactlyOnce | app/main.py:317-329 | over every run of recording, polling, failing and committing with at most 50 events between committed polls, the device's rows are its full history up to the last committed poll, in order, each once |
| EventIngestion.FallingBehindLosesEvents | agent/wifi-agent.sh:105-109 | the first commit beyond that limit leaves out the next event, and no later run brings it |
| EventIngestion.CompleteExactlyWhenKeepsUp | agent/wifi-agent.sh:105-109 | over every run, the device's rows are its history up to the last committed poll if and only if no commit came more than 50 events after the one before |
| EventIngestion.RestartedNumbersAreDropped | app/events.py:24-31 | events numbered no higher than what is stored are all dropped, whatever they are: a counter that starts over loses events |
| EventLines.SedChainIsEscape | agent/wifi-agent.sh:101 | the two substitutions in a row equal a single-pass JSON string escape |
| EventLines.SedReadsBackExactlyWhen | agent/wifi-agent.sh:101 | an escaped message reads back as itself (section 7 of RFC 8259) if and only if it has no control character |
| EventLines.LineReadsBack | agent/wifi-agent.sh:102-103 | a printed line parses, whatever follows it, as the object of the event's number, time, type, message and details |
| EventLines.EventsJson | agent/wifi-agent.sh:115-126 | the loop prints the non-empty lines with commas between, in brackets |
| EventLines.ArrayReadsBack | agent/wifi-agent.sh:115-126 | that text parses as an array (section 5 of RFC 8259) of exactly the lines' values in order |
| EventLines.LogReadsBack | agent/wifi-agent.sh:93-126 | recording events and printing the log parses as the array of exactly those events, in order |
| EventDetails.DetailsReadBackExactlyWhen | agent/wifi-agent.sh:244-251 | each of the printed details, channel unquoted, is read back as meant up to its line's closing brace if and only if the configured channel, where it is printed, is a JSON number (also lines 405-406, 475-482) |
| EventDetails.LogReadsBackExactlyWhen | agent/wifi-agent.sh:115-126 | the printed log of the agent's own events reads as the array of the events as meant if and only if every configured channel in it is a JSON number: one that is not spoils the whole array |
| EventDetails.ChannelNumbersAreNumeric | agent/wifi-agent.sh:362 | a channel number is one, `auto` is not |
| Json.ValueLocal | agent/wifi-agent.sh:102-103 | a JSON value that has been read reads the same whatever text follows (RFC 8259, sections 2 to 7); this is why details can be any JSON value |
| Liveness.TransitionsAlternate | app/main.py:122-168 | however liveness checks and ingests interleave between their SELECTs and UPDATEs, and wherever they end, the UPDATEs of offline_alerted strictly alternate, each a real change |
| Liveness.EachChangeReportedOnce | app/main.py:132-179 | on each channel every change is reported at most once, by an alert that says what it was; it is reported or still owed unless it is lost |
| Liveness.LostExactlyByEnding | app/main.py:152-179 | a change is lost on a channel exactly by its job ending while it owes the report |
| Liveness.AlertsAlternateExactlyWhen | app/main.py:134-179 | the alerts of a channel strictly alternate if and only if none was sent out of turn; while no job has ended owing a report, if and only if none was sent while the other job owed an earlier one, and they are then the changes in order |
| Liveness.OutOfTurnExactlyWhen | app/main.py:134-179 | out of turn means that the lost reports, one the other job owes and a later change of the other job are together odd in number; that is so if and only if the job is about to send the alert that the next place in an alternating log does not call for |
| Liveness.PromptReportsAlternate | app/main.py:134-179 | if no job UPDATEs the flag while the other still owes a report and none ends owing one, the alerts alternate wherever the SELECTs fall |
| Liveness.FlagsSeenDeviceExactlyWhen | app/main.py:158-168 | when the check flags a device, it is no longer stale for the SELECT that chose it if and only if an ingest stamped it between that SELECT and this UPDATE; likewise for any later point in time |
| Liveness.OfflineThoughSeen | app/main.py:158-168 | a concrete run that flags and pushes "offline" for a device seen at that moment |
| Liveness.BackOnlineBeforeOffline | app/main.py:134-172 | a concrete run that pushes "back online" before "offline" |
| Liveness.OutageNeverReported | app/main.py:167-172 | a concrete run, its liveness job ending after the UPDATE, that pushes "back online" only, with nothing overtaken |
| Liveness.WholeOutageLost | app/main.py:132-179 | a concrete run that loses both reports of an outage and still alternates |
| LivenessJobs.Devices.CheckDeviceLiveness | app/main.py:152-179 | exactly the rows not yet alerted about and never seen or last seen before the cutoff are flagged and reported offline, once each, in order; nothing else changes |
| LivenessJobs.Devices.GetOrCreateDevice | app/main.py:122-149 | a known device is stamped and reported back online exactly if it was flagged; an unknown one is registered, or refused without a role |
| LivenessJobs.CheckStepsRefineLoop | app/main.py:152-179 | the check's steps with nothing between them do to the device what the loop does |
| LivenessJobs.IngestStepsRefineCall | app/main.py:122-142 | so do an ingest's steps |
| RadioCounters.RadioRow.Upsert | app/main.py:212-245 | the rates compare with what was stored, which this poll's counters replace, null or not |
| RadioCounters.IntervalAccounts | app/main.py:240-244 | an interval's throughput (megabits a second) times its microseconds, in bytes, is exactly the counters' growth when both ends are read and it is not negative, otherwise nothing |
| RadioCounters.NeverMoreThanMoved | app/main.py:240-244 | over any run of resets, nulls and clock readings, the sum of throughput x seconds x 10^6 / 8 never exceeds the bytes truly moved |
| RadioCounters.AllMovedExactlyWhen | app/main.py:240-244 | it equals them if and only if every interval that moved anything is readable at both ends, takes time and has no drop |
| RadioCounters.LastMinusFirst | app/main.py:240-244 | with no drop and every poll readable it is the last counters minus the first |
| RadioCounters.ThroughputExactlyWhenRead | app/main.py:240-245 | there is a throughput exactly when this poll and the previous one read the byte counters; never negative; zero on a drop |
| RadioCounters.RetriesExactlyWhenRead | app/main.py:234-239 | there is a retries rate exactly when this poll and the previous one read the frame counters; never negative; zero when retries drop or no packets are added |
| RadioCounters.IntervalRetriesAre | app/main.py:234-239 | rate x packet growth is exactly the growth of the retries when both ends are read, it is not negative and packets were added, otherwise nothing |
| RadioCounters.NeverMoreThanRetried | app/main.py:234-239 | over any run, the sum of rate x packet growth never exceeds the retries there truly were |
| RadioCounters.AllRetriedExactlyWhen | app/main.py:234-239 | it equals them if and only if every interval with retries is read at both ends, drops none and adds packets |
| Uptime.GapSumComplements | app/main.py:722-725 | over any times, the summed excess is the span minus the sum of min(gap, 60 s) |
| Uptime.DowntimeIsTheRest | app/main.py:701-731 | the query's downtime is the number of instants of the window that no reading (or the window's start) vouches for |
| Uptime.UptimeIsShareOfWindow | app/main.py:732-733 | the percentage is the covered share of the window, already in [0, 100]: the clamp never changes it |
| Uptime.FullUptimeExactlyWhen | app/main.py:701-733 | it is 100 if and only if every instant has a reading, or the window's start, less than 60 s back |
| Uptime.MoreReadingsNeverLower | app/main.py:709-712 | adding readings never lowers it |
| Uptime.OnlyTheTimesMatter | app/main.py:713-722 | neither row order nor duplicates matter |
| Uptime.SortSorts | app/main.py:720-722 | the ordering the gaps are taken over is sorted and a permutation of the times |
| Backups.DeviceBackups.PollBackups | app/main.py:654-688 | a pass stores each device's fetch in turn; failed, empty and unregistered ones are skipped |
| Backups.DeviceBackups.StoreIfNew | app/main.py:663-688 | a fetch is stored exactly when its digest differs from the latest, then pruned |
| Backups.PruneKeepsNewest | app/main.py:679-688 | the DELETE leaves exactly the device's newest N rows and every other device's rows |
| Backups.StoredAreLatest | app/main.py:654-688 | whatever the retention setting does over time, the stored versions are the last ones of the device's version history, at least one as soon as there is one |
| Backups.StoredIsLastN | app/main.py:654-688 | with fixed retention N they are exactly the last min(N, n) versions, all of them for N = 0, where the versions are the non-empty fetches without adjacent duplicates |
| ChannelEvents.Telemetry.RecordChannelChangeIfAny | app/main.py:280-314 | one event, with its commanded flag, exactly when the radio is known, both channels are and they differ |
| ChannelEvents.Telemetry.Ingest | app/main.py:339-351 | the event is decided before the row is inserted |
| ChannelEvents.ReplayTracksExactlyWhen | app/main.py:280-314 | replaying a radio's events from its first channel gives the telemetry channel at every poll if and only if no reading changed it behind a null |
| ChannelEvents.NoNullsNothingHidden | app/main.py:280-314 | in particular in every run of polls without a null channel |
| ChannelEvents.EventsAreChanges | app/main.py:280-314 | every event of every run was recorded at a poll that found its radio's channel changed since that radio's last poll, both known, and is commanded if and only if a row of that device and radio for the new channel, applied or acked, was applied less than ten minutes before |
| ChannelEvents.ChangesHaveEvents | app/main.py:280-314 | and every poll that found such a change has its event, with that flag |
| ChannelEvents.JustAppliedIsCommanded | app/main.py:296-306 | so a change to the channel of a command applied within ten minutes and not reverted is commanded |
| ChannelEvents.EventsAreChained | app/main.py:290-314 | each event then starts where the previous one ended and changes something |
| ChannelEvents.ChangeBehindNullIsLost | app/main.py:281-291 | a concrete run whose only change is never reported |
| Charts.TouchesExactly | app/main.py:810-824 | a window has times in exactly the buckets from the one its start lies in to the one its end lies in |
| Charts.ChartBound | app/main.py:792-796 | for every hours > 0 and every position of the window, at most 621 buckets |
| Charts.ChartBoundIsReached | app/main.py:792-796 | a window that touches 621 |
| Charts.ChartHasItsPoints | app/main.py:792-796 | from five hours on a window touches 601 to 621 buckets; below that, more than hours x 120 and less than two more |

## Assumptions

- One server process, one instance per scheduler job, one monotone clock, one device row per role; the optimizer is
  the only source of channel commands (the dashboard may add reboots).
- rpcd refuses an apply while a rollback timer is armed. A power cut inside `echo > file` leaves the file empty, inside
  `rm` of one file leaves it or removes it.
- Database calls either happen or end the job; a job that ends may leave anything it has not yet done undone.
- Bandwidths other than 1, 2, 4 and 8 MHz raise in the code and end the optimizer pass, as modelled.

## Left out

- SSH and SFTP transport, provisioning, restore and the connection pool: only "may fail before or after taking effect" is kept.
- FastAPI routes, token check, ntfy delivery and the dashboard: a notification is an appended event.
- The SQL engine, TimescaleDB retention and migrations: tables are sequences with the keys and constraints that are used.
- Chip reset, module reload and network reload: observed only through the next reading.
- An apply process that outlives its dropped SSH call and goes on beside a later one is not modelled. It is ordinary
  under contention for the radio lock: app/ssh_client.py:44-66 runs every command up to twice, and an apply may wait 60 s
  for the lock (agent/wifi-agent.sh:153-157) under a timeout of 45 s (app/device_client.py:41). Such a process could arm
  the timer for its channel while a later command is being verified, which the safe-apply results do not cover. A
  command that runs twice within one call is modelled as run once: what a second verify adds is a later verify.
- A process that dies holding the radio lock while several wait for it: outside what the lock promises.
- The lock's retry loop is modelled as process steps, not as a method, because what matters is how processes interleave.
- Hostnames, notification texts and log messages.
- EventLog.Log.RecordEvent: a power cut inside it is not modelled, because ingestion rests on the numbers alone. Between
  writing the counter and appending the line it loses that event; inside the counter's write it restarts the numbers,
  which `RestartedNumbersAreDropped` covers.
- A watchdog whose database call fails between a reboot and storing it: the attempt would not be counted.
- RadioCounters.RadioRow.Upsert: requires that both counters of a pair are present or absent together, because the code raises otherwise.
- The time filter of the averaging queries (app/optimizer.py:65-73, 267-275): averages are over the rows it returns.
- Client counters (app/main.py:248-268) compute rates like the radio's and are not repeated.
- Uptime.UptimeIsShareOfWindow: takes the window as exactly the interval between its ends, because rounding of fractional hours to microseconds is not the point.
- Charts.ChartBound: uses real arithmetic for hours and times, because floating-point rounding is not the point.
- Json.ValueLocal: the reader rejects `\u` escapes of surrogates, paired or not, because the agent never prints them.
- EventLines.SedReadsBackExactlyWhen: shell command substitution also drops trailing newlines; such messages are never recorded.
- Hashing: archives are compared by an injective digest.
- Deleting backups by hand, hand-inserted channel commands and edits of the watchdog's columns.
