/** What an outage leaves behind on the device: a healthy confirmation removes both counter files, so that the next
  * outage gets all of its reboots again (agent/wifi-agent.sh, verify_and_recover_radio). */
module RecoveryEnds {
  import opened Wrappers
  import opened RadioRecovery
  import opened RebootBound
  import opened RebootTears

  // ---------- The script, unrolled ----------

  predicate SeesHealthy(r: Reading, expected: int) {
    r.live == Some(expected) && r.countryAtCheck
  }

  /** Healthy: report the end of an outage, if there was one, and remove both files. */
  function HealthyEnd(attempt: nat, r: Reading, c: Counters): seq<Effect> {
    [Checked(attempt, r), Confirmed] +
    (if c.reboots != Number(0) || c.corruption != Number(0) then [Event(RadioRecovered)] else []) +
    [ClearReboots, ClearCorruption]
  }

  /** Wrong country: no chip reset; at most four plain reboots, counted before they happen. */
  function CorruptedEnd(c: Counters): seq<Effect> {
    var count := Value(c.corruption);
    [Event(CorruptedDefaultsDetected)] +
    if count >= 4 then [Event(OnDeviceRecoveryExhausted(CorruptionPath))]
    else [WriteCorruption(count + 1), Event(OnDeviceReboot(CorruptionPath, count + 1)), Reboot(CorruptionPath)]
  }

  /** Three chip resets have not helped: at most two reboots, counted before they happen. */
  function ChannelEnd(c: Counters): seq<Effect> {
    var count := Value(c.reboots);
    if count >= 2 then [Event(OnDeviceRecoveryExhausted(ChannelPath))]
    else [WriteReboots(count + 1), Event(OnDeviceReboot(ChannelPath, count + 1)), Reboot(ChannelPath)]
  }

  /** The last two checks and what they lead to, the first of them being the `attempt`-th. */
  function LaterChecks(c: Counters, expected: int, attempt: nat, rest: seq<Reading>): seq<Effect>
    decreases |rest|
  {
    if rest == [] then ChannelEnd(c)
    else if SeesHealthy(rest[0], expected) then HealthyEnd(attempt, rest[0], c)
    else if !rest[0].countryAtBranch then [Checked(attempt, rest[0])] + CorruptedEnd(c)
    else [Checked(attempt, rest[0]), Event(ChipResetAttempted(attempt)), ChipReset(attempt)] +
         LaterChecks(c, expected, attempt + 1, rest[1..])
  }

  /** All an invocation does, in order: nothing at all, or up to three checks. The first one that fails is reported; a
    * failing check on the right country is answered by a chip reset before anything else is checked. */
  lemma InvocationUnrolled(c: Counters, w: World)
    requires w.Complete()
    ensures var r := w.readings;
      Invocation(c, w) ==
        if w.disabled || w.locked || true !in w.interface || w.expected.None? then []
        else if SeesHealthy(r[0], w.expected.value) then HealthyEnd(1, r[0], c)
        else if !r[0].countryAtBranch then [Checked(1, r[0]), Event(RadioUnhealthyDetected)] + CorruptedEnd(c)
        else [Checked(1, r[0]), Event(RadioUnhealthyDetected), Event(ChipResetAttempted(1)), ChipReset(1)] +
             LaterChecks(c, w.expected.value, 2, r[1..])
  {
    if w.expected.Some? {
      LaterUnrolled(c, w.expected.value, w.readings, 1);
    }
  }

  lemma {:induction false} LaterUnrolled(c: Counters, expected: int, readings: seq<Reading>, k: nat)
    requires 1 <= k <= |readings| == 3
    ensures Attempts(c, expected, readings, k) == LaterChecks(c, expected, k + 1, readings[k..])
    decreases 3 - k
  {
    if k < 3 {
      LaterUnrolled(c, expected, readings, k + 1);
      assert readings[k..][1..] == readings[k + 1..];
    }
  }

  // ---------- The files afterwards ----------

  lemma {:induction false} AfterAppend(c: Counters, es: seq<Effect>, fs: seq<Effect>)
    ensures After(c, es + fs) == After(After(c, es), fs)
    decreases |fs|
  {
    if fs == [] {
      assert es + fs == es;
    } else {
      var n := |fs| - 1;
      AfterAppend(c, es, fs[..n]);
      assert (es + fs)[..|es| + n] == es + fs[..n];
    }
  }

  /** The healthy checks: some check sees the radio healthy, every earlier one failed on the right country. */
  ghost predicate SomeHealthy(expected: int, readings: seq<Reading>) {
    exists k :: 0 <= k < |readings| && HealthyAt(expected, readings, k)
  }

  ghost predicate HealthyAt(expected: int, readings: seq<Reading>, k: nat)
    requires k < |readings|
  {
    readings[k].live == Some(expected) && readings[k].countryAtCheck &&
    forall j :: 0 <= j < k ==> readings[j].countryAtBranch
  }

  lemma {:induction false} HealsFrom(expected: int, readings: seq<Reading>, k: nat)
    requires k <= |readings| == 3 && forall j :: 0 <= j < k ==> readings[j].countryAtBranch
    requires forall j :: 0 <= j < k ==> !Healthy(readings[j], expected)
    ensures Heals(expected, readings, k) <==> SomeHealthy(expected, readings)
    decreases 3 - k
  {
    if k < 3 {
      if Healthy(readings[k], expected) {
        assert HealthyAt(expected, readings, k);
      } else if readings[k].countryAtBranch {
        HealsFrom(expected, readings, k + 1);
      }
    }
  }

  lemma ClearedAfter(c: Counters, es: seq<Effect>)
    ensures After(c, es + [ClearReboots, ClearCorruption]) == Counters(Number(0), Number(0))
  {
    AfterAppend(c, es, [ClearReboots, ClearCorruption]);
    assert [ClearReboots, ClearCorruption][..1] == [ClearReboots] && [ClearReboots][..0] == [];
  }

  lemma {:induction false} HealedFilesAreGone(c: Counters, expected: int, readings: seq<Reading>, k: nat)
    requires k <= |readings| == 3 && Heals(expected, readings, k)
    ensures After(c, Attempts(c, expected, readings, k)) == Counters(Number(0), Number(0))
    decreases 3 - k
  {
    var r := readings[k];
    if Healthy(r, expected) {
      var es := [Checked(k + 1, r)] + ([Confirmed] + (if c != FRESH then [Event(RadioRecovered)] else []));
      ClearedAfter(c, es);
      assert Attempts(c, expected, readings, k) == es + [ClearReboots, ClearCorruption];
    } else {
      HealedFilesAreGone(c, expected, readings, k + 1);
      AfterAppend(c, FailedAttempt(k + 1, r), Attempts(c, expected, readings, k + 1));
      FailedLeavesFiles(c, k + 1, r);
    }
  }

  lemma FailedLeavesFiles(c: Counters, attempt: nat, r: Reading)
    ensures After(c, FailedAttempt(attempt, r)) == c
  {
    AfterAppend(c, [Checked(attempt, r)] + (if attempt == 1 then [Event(RadioUnhealthyDetected)] else []),
                [Event(ChipResetAttempted(attempt)), ChipReset(attempt)]);
    AfterAppend(c, [Checked(attempt, r)], if attempt == 1 then [Event(RadioUnhealthyDetected)] else []);
  }

  /** The invocation runs, and finds the radio healthy. */
  ghost predicate Confirms(w: World) {
    && w.Complete() && !w.disabled && !w.locked && true in w.interface && w.expected.Some?
    && SomeHealthy(w.expected.value, w.readings)
  }

  /** From any files whatever, blank ones included, an uncut invocation that finds the radio healthy removes both. */
  lemma ConfirmationRemovesFiles(c: Counters, w: World)
    requires Confirms(w)
    ensures After(c, Invocation(c, w)) == Counters(Number(0), Number(0))
  {
    HealsFrom(w.expected.value, w.readings, 0);
    HealedFilesAreGone(c, w.expected.value, w.readings, 0);
  }

  // ---------- The next outage ----------

  /** Where the files are fresh, what follows goes as from the beginning. */
  lemma {:induction false} HistoryRestarts(before: seq<Episode>, more: seq<Episode>)
    requires Complete(before) && Complete(more) && After(FRESH, History(before)) == FRESH
    ensures Complete(before + more) && History(before + more) == History(before) + History(more)
    decreases |more|
  {
    if more == [] {
      assert before + more == before && History(before) + [] == History(before);
    } else {
      var n := |more| - 1;
      var front, e := more[..n], more[n];
      assert more == front + [e] && before + more == (before + front) + [e];
      HistoryRestarts(before, front);
      AfterAppend(FRESH, History(before), History(front));
      HistoryGrows(front, e);
      HistoryGrows(before + front, e);
      Reassociate(History(before), History(front), Adds(After(FRESH, History(front)), e));
    }
  }

  /** What an episode adds where the files are c. */
  function Adds(c: Counters, e: Episode): seq<Effect>
    requires e.world.Complete()
  {
    CutAt(Invocation(c, e.world), e.reach, e.torn)
  }

  lemma HistoryGrows(before: seq<Episode>, e: Episode)
    requires Complete(before) && e.world.Complete()
    ensures Complete(before + [e])
    ensures History(before + [e]) == History(before) + Adds(After(FRESH, History(before)), e)
  {
    var all := before + [e];
    assert all[..|before|] == before && all[|before|] == e;
  }

  /** Whatever has happened before, with cuts and torn writes anywhere: once an invocation has found the radio healthy
    * and not been cut, a run exists in which the next outage gets its two channel-path or its four corrupted-defaults
    * reboots again. */
  lemma RecoveryRestoresTheCap(before: seq<Episode>, w: World, path: Path)
    returns (healing: Episode, outage: seq<Episode>)
    requires Complete(before) && Confirms(w)
    ensures healing.world == w && !healing.torn && Complete(before + [healing]) && Complete(outage)
    ensures Complete(before + [healing] + outage)
    ensures var h := History(before + [healing] + outage); var n := |History(before + [healing])|;
      n <= |h| && h[..n] == History(before + [healing]) && Confirmed !in h[n..] &&
      CountReboots(h[n..], path) == if path.ChannelPath? then 2 else 4
  {
    var c := After(FRESH, History(before));
    healing := Episode(w, |Invocation(c, w)|, false);
    HistoryGrows(before, healing);
    AfterAppend(FRESH, History(before), Invocation(c, w));
    ConfirmationRemovesFiles(c, w);
    outage := BoundIsReached(path, 0);
    HistoryRestarts(before + [healing], outage);
    var h, n := History(before + [healing] + outage), |History(before + [healing])|;
    assert h[n..] == History(outage);
  }
}
