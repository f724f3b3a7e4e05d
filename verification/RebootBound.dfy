/** How often the on-device recovery can reboot the device, over any sequence of invocations, each cut
  * short anywhere by a crash, a power cut or its own reboot. */
module RebootBound {
  import opened Wrappers
  import opened RadioRecovery

  // ---------- Counting along a trace ----------

  /** The counter files, and the reboots of each path and the torn writes of its counter since the radio was
    * last confirmed healthy. */
  datatype Meter = Meter(files: Counters, channel: nat, corruption: nat, channelTears: nat, corruptionTears: nat)

  function Turn(m: Meter, e: Effect): Meter {
    var files := Perform(m.files, e);
    match e
    case Confirmed => Meter(files, 0, 0, 0, 0)
    case Reboot(ChannelPath) => m.(files := files, channel := m.channel + 1)
    case Reboot(CorruptionPath) => m.(files := files, corruption := m.corruption + 1)
    case Tear(ChannelPath) => m.(files := files, channelTears := m.channelTears + 1)
    case Tear(CorruptionPath) => m.(files := files, corruptionTears := m.corruptionTears + 1)
    case _ => m.(files := files)
  }

  function Read(m: Meter, es: seq<Effect>): Meter {
    if es == [] then m else Turn(Read(m, es[..|es| - 1]), es[|es| - 1])
  }

  const ZERO := Meter(FRESH, 0, 0, 0, 0)

  /** Every reboot has been counted in its file before it happened, a torn write has forgotten at most as many
    * as were below the cap, and the files respect the caps. */
  predicate Good(m: Meter) {
    && m.channel <= m.channelTears * (MAX_CHANNEL_REBOOTS - 1) + Value(m.files.reboots)
    && m.corruption <= m.corruptionTears * (MAX_CORRUPTION_REBOOTS - 1) + Value(m.files.corruption)
    && Value(m.files.reboots) <= MAX_CHANNEL_REBOOTS && Value(m.files.corruption) <= MAX_CORRUPTION_REBOOTS
  }

  /** A counter is written only below its cap. */
  predicate Fits(m: Meter, e: Effect) {
    && (e.WriteReboots? ==> Value(m.files.reboots) < MAX_CHANNEL_REBOOTS)
    && (e.WriteCorruption? ==> Value(m.files.corruption) < MAX_CORRUPTION_REBOOTS)
  }

  /** Good wherever the effects are cut short. */
  ghost predicate Disciplined(m: Meter, es: seq<Effect>) {
    forall cut :: 0 <= cut <= |es| ==> GoodAt(m, es, cut)
  }

  ghost predicate GoodAt(m: Meter, es: seq<Effect>, cut: nat)
    requires cut <= |es|
  {
    Good(Read(m, es[..cut])) && (cut < |es| ==> Fits(Read(m, es[..cut]), es[cut]))
  }

  lemma ReadSnoc(m: Meter, es: seq<Effect>, e: Effect)
    ensures Read(m, es + [e]) == Turn(Read(m, es), e)
  {
    assert (es + [e])[..|es|] == es;
  }

  lemma {:induction false} ReadAppend(m: Meter, es: seq<Effect>, fs: seq<Effect>)
    ensures Read(m, es + fs) == Read(Read(m, es), fs)
    decreases |fs|
  {
    if fs == [] {
      assert es + fs == es;
    } else {
      var n := |fs| - 1;
      ReadAppend(m, es, fs[..n]);
      assert es + fs == es + fs[..n] + [fs[n]];
      ReadSnoc(m, es + fs[..n], fs[n]);
    }
  }

  lemma {:induction false} FilesAgree(m: Meter, es: seq<Effect>)
    ensures Read(m, es).files == After(m.files, es)
    decreases |es|
  {
    if es != [] {
      FilesAgree(m, es[..|es| - 1]);
    }
  }

  /** Where the effects end. */
  lemma GoodAtEnd(m: Meter, es: seq<Effect>)
    ensures GoodAt(m, es, |es|) <==> Good(Read(m, es))
  {
    assert es[..|es|] == es;
  }

  /** Before the end, it does not matter what follows. */
  lemma GoodAtPart(m: Meter, all: seq<Effect>, es: seq<Effect>, cut: nat)
    requires es <= all && cut < |es|
    ensures GoodAt(m, all, cut) <==> GoodAt(m, es, cut)
  {
    assert all[..cut] == es[..cut];
  }

  /** Beyond it, what follows starts from where they lead. */
  lemma GoodAtRest(m: Meter, es: seq<Effect>, fs: seq<Effect>, cut: nat)
    requires cut <= |fs|
    ensures GoodAt(m, es + fs, |es| + cut) <==> GoodAt(Read(m, es), fs, cut)
  {
    assert (es + fs)[..|es| + cut] == es + fs[..cut];
    ReadAppend(m, es, fs[..cut]);
  }

  lemma DisciplinedNil(m: Meter)
    requires Good(m)
    ensures Disciplined(m, [])
  {
    GoodAtEnd(m, []);
  }

  lemma DisciplinedIsGood(m: Meter, es: seq<Effect>)
    requires Disciplined(m, es)
    ensures Good(Read(m, es))
  {
    assert GoodAt(m, es, |es|);
    GoodAtEnd(m, es);
  }

  lemma DisciplinedSnoc(m: Meter, es: seq<Effect>, e: Effect)
    requires Disciplined(m, es) && Fits(Read(m, es), e) && Good(Turn(Read(m, es), e))
    ensures Disciplined(m, es + [e])
  {
    DisciplinedIsGood(m, es);
    DisciplinedOne(Read(m, es), e);
    DisciplinedAppend(m, es, [e]);
  }

  lemma DisciplinedOne(m: Meter, e: Effect)
    requires Good(m) && Fits(m, e) && Good(Turn(m, e))
    ensures Disciplined(m, [e]) && Read(m, [e]) == Turn(m, e)
  {
    var none: seq<Effect> := [];
    assert [e][..0] == none;
    ReadSnoc(m, none, e);
    assert none + [e] == [e];
    GoodAtEnd(m, [e]);
  }

  lemma DisciplinedAppend(m: Meter, es: seq<Effect>, fs: seq<Effect>)
    requires Disciplined(m, es) && Disciplined(Read(m, es), fs)
    ensures Disciplined(m, es + fs)
  {
    forall cut | 0 <= cut <= |es + fs| ensures GoodAt(m, es + fs, cut) {
      GoodAtAppend(m, es + fs, es, fs, cut);
    }
  }

  lemma GoodAtAppend(m: Meter, all: seq<Effect>, es: seq<Effect>, fs: seq<Effect>, cut: nat)
    requires all == es + fs && cut <= |all|
    requires cut < |es| ==> GoodAt(m, es, cut)
    requires cut >= |es| ==> GoodAt(Read(m, es), fs, cut - |es|)
    ensures GoodAt(m, all, cut)
  {
    if cut < |es| {
      GoodAtPart(m, all, es, cut);
    } else {
      GoodAtRest(m, es, fs, cut - |es|);
    }
  }

  // ---------- One invocation ----------

  predicate Quiet(es: seq<Effect>) {
    forall i :: 0 <= i < |es| ==> es[i].Checked? || es[i].Event? || es[i].ChipReset?
  }

  lemma {:induction false} QuietIsDisciplined(m: Meter, es: seq<Effect>)
    requires Good(m) && Quiet(es)
    ensures Disciplined(m, es) && Read(m, es) == m
    decreases |es|
  {
    if es == [] {
      DisciplinedNil(m);
    } else {
      var n := |es| - 1;
      QuietIsDisciplined(m, es[..n]);
      assert es == es[..n] + [es[n]];
      DisciplinedSnoc(m, es[..n], es[n]);
    }
  }

  lemma ThreeStepsDisciplined(m: Meter, a: Effect, b: Effect, c: Effect)
    requires Good(m) && Good(Turn(m, a)) && Good(Turn(Turn(m, a), b)) && Good(Turn(Turn(Turn(m, a), b), c))
    requires Fits(m, a) && Fits(Turn(m, a), b) && Fits(Turn(Turn(m, a), b), c)
    ensures Disciplined(m, [a, b, c])
  {
    DisciplinedOne(m, a);
    var two, three := [a, b], [a, b, c];
    assert two == [a] + [b] && three == two + [c];
    DisciplinedMore(m, [a], b, two);
    DisciplinedMore(m, two, c, three);
  }

  lemma DisciplinedMore(m: Meter, es: seq<Effect>, e: Effect, all: seq<Effect>)
    requires all == es + [e] && Disciplined(m, es) && Fits(Read(m, es), e) && Good(Turn(Read(m, es), e))
    ensures Disciplined(m, all) && Read(m, all) == Turn(Read(m, es), e)
  {
    DisciplinedSnoc(m, es, e);
    ReadSnoc(m, es, e);
  }

  /** The counter is written before the reboot, and never past the cap. */
  lemma ChannelDisciplined(m: Meter)
    requires Good(m)
    ensures Disciplined(m, EscalateChannel(m.files))
  {
    var reboots := Value(m.files.reboots);
    if reboots < MAX_CHANNEL_REBOOTS {
      ThreeStepsDisciplined(m, WriteReboots(reboots + 1), Event(OnDeviceReboot(ChannelPath, reboots + 1)),
                            Reboot(ChannelPath));
    } else {
      QuietIsDisciplined(m, EscalateChannel(m.files));
    }
  }

  lemma CorruptionDisciplined(m: Meter)
    requires Good(m)
    ensures Disciplined(m, EscalateCorruption(m.files))
  {
    var corruption := Value(m.files.corruption);
    if corruption < MAX_CORRUPTION_REBOOTS {
      ThreeStepsDisciplined(m, WriteCorruption(corruption + 1), Event(OnDeviceReboot(CorruptionPath, corruption + 1)),
                            Reboot(CorruptionPath));
    } else {
      QuietIsDisciplined(m, EscalateCorruption(m.files));
    }
  }

  lemma ClearingDisciplined(m: Meter, es: seq<Effect>)
    requires Disciplined(m, es) && Read(m, es).channel == 0 && Read(m, es).corruption == 0
    ensures Disciplined(m, es + [ClearReboots, ClearCorruption])
  {
    DisciplinedIsGood(m, es);
    DisciplinedMore(m, es, ClearReboots, es + [ClearReboots]);
    var all := es + [ClearReboots, ClearCorruption];
    assert all == es + [ClearReboots] + [ClearCorruption];
    DisciplinedMore(m, es + [ClearReboots], ClearCorruption, all);
  }

  /** The counters are cleared only after the healthy confirmation, one file at a time. */
  lemma RecoveryDisciplined(m: Meter)
    requires Good(m)
    ensures Disciplined(m, Recovered(m.files))
  {
    var report: seq<Effect> := if m.files != FRESH then [Event(RadioRecovered)] else [];
    var confirmed := Turn(m, Confirmed);
    DisciplinedOne(m, Confirmed);
    QuietIsDisciplined(confirmed, report);
    DisciplinedAppend(m, [Confirmed], report);
    ReadAppend(m, [Confirmed], report);
    ClearingDisciplined(m, [Confirmed] + report);
  }

  lemma AttemptDisciplined(m: Meter, attempt: nat, expected: int, r: Reading)
    requires Good(m)
    ensures Disciplined(m, Attempt(m.files, attempt, expected, r))
  {
    var check: seq<Effect> := [Checked(attempt, r)];
    if Healthy(r, expected) {
      QuietIsDisciplined(m, check);
      RecoveryDisciplined(m);
      DisciplinedAppend(m, check, Recovered(m.files));
    } else if !r.countryAtBranch {
      var head := check + (if attempt == 1 then [Event(RadioUnhealthyDetected)] else []) +
                  [Event(CorruptedDefaultsDetected)];
      QuietIsDisciplined(m, head);
      CorruptionDisciplined(m);
      DisciplinedAppend(m, head, EscalateCorruption(m.files));
    } else {
      QuietIsDisciplined(m, FailedAttempt(attempt, r));
    }
  }

  lemma {:induction false} AttemptsDisciplined(m: Meter, expected: int, readings: seq<Reading>, k: nat)
    requires Good(m) && k <= |readings| == MAX_ATTEMPTS
    ensures Disciplined(m, Attempts(m.files, expected, readings, k))
    decreases MAX_ATTEMPTS - k
  {
    if k == MAX_ATTEMPTS {
      ChannelDisciplined(m);
    } else {
      AttemptDisciplined(m, k + 1, expected, readings[k]);
      if !Healthy(readings[k], expected) && readings[k].countryAtBranch {
        QuietIsDisciplined(m, FailedAttempt(k + 1, readings[k]));
        AttemptsDisciplined(m, expected, readings, k + 1);
        DisciplinedAppend(m, FailedAttempt(k + 1, readings[k]), Attempts(m.files, expected, readings, k + 1));
      }
    }
  }

  // ---------- Any sequence of invocations ----------

  /** One invocation, of which only the first `reach` effects take place. With `torn` the next effect has begun:
    * if it is a counter's write, the file is left blank. */
  datatype Episode = Episode(world: World, reach: nat, torn: bool)

  function TearOf(e: Effect): seq<Effect> {
    match e
    case WriteReboots(_) => [Tear(ChannelPath)]
    case WriteCorruption(_) => [Tear(CorruptionPath)]
    case _ => []
  }

  function CutAt(es: seq<Effect>, reach: nat, torn: bool): seq<Effect> {
    if reach >= |es| then es else es[..reach] + if torn then TearOf(es[reach]) else []
  }

  predicate Complete(episodes: seq<Episode>) {
    forall k :: 0 <= k < |episodes| ==>
      |episodes[k].world.interface| == 6 && |episodes[k].world.readings| == MAX_ATTEMPTS
  }

  function History(episodes: seq<Episode>): seq<Effect>
    requires Complete(episodes)
  {
    if episodes == [] then []
    else
      var n := |episodes| - 1;
      var before := History(episodes[..n]);
      before + CutAt(Invocation(After(FRESH, before), episodes[n].world), episodes[n].reach, episodes[n].torn)
  }

  lemma TearKeepsGood(m: Meter, e: Effect)
    requires Good(m) && Fits(m, e)
    ensures Disciplined(m, TearOf(e))
  {
    DisciplinedNil(m);
    if TearOf(e) != [] {
      assert [] + TearOf(e) == TearOf(e) && TearOf(e) == [TearOf(e)[0]];
      DisciplinedSnoc(m, [], TearOf(e)[0]);
    }
  }

  lemma DisciplinedPrefix(m: Meter, es: seq<Effect>, reach: nat)
    requires Disciplined(m, es) && reach <= |es|
    ensures Disciplined(m, es[..reach])
  {
    forall cut | 0 <= cut <= reach ensures GoodAt(m, es[..reach], cut) {
      assert GoodAt(m, es, cut);
      if cut < reach {
        GoodAtPart(m, es, es[..reach], cut);
      } else {
        GoodAtEnd(m, es[..reach]);
      }
    }
  }

  lemma DisciplinedCut(m: Meter, es: seq<Effect>, reach: nat, torn: bool)
    requires Disciplined(m, es)
    ensures Disciplined(m, CutAt(es, reach, torn))
  {
    if reach < |es| {
      DisciplinedPrefix(m, es, reach);
      if torn {
        assert GoodAt(m, es, reach);
        TearKeepsGood(Read(m, es[..reach]), es[reach]);
        DisciplinedAppend(m, es[..reach], TearOf(es[reach]));
      } else {
        assert es[..reach] + [] == es[..reach];
      }
    }
  }

  lemma InvocationDisciplined(m: Meter, w: World)
    requires Good(m) && w.Complete()
    ensures Disciplined(m, Invocation(m.files, w))
  {
    if Invocation(m.files, w) == [] {
      DisciplinedNil(m);
    } else {
      AttemptsDisciplined(m, w.expected.value, w.readings, 0);
    }
  }

  lemma {:induction false} HistoryDisciplined(episodes: seq<Episode>)
    requires Complete(episodes)
    ensures Disciplined(ZERO, History(episodes))
    decreases |episodes|
  {
    if episodes == [] {
      DisciplinedNil(ZERO);
    } else {
      var n := |episodes| - 1;
      var before := History(episodes[..n]);
      HistoryDisciplined(episodes[..n]);
      FilesAgree(ZERO, before);
      DisciplinedIsGood(ZERO, before);
      var m := Read(ZERO, before);
      var es := Invocation(m.files, episodes[n].world);
      InvocationDisciplined(m, episodes[n].world);
      DisciplinedCut(m, es, episodes[n].reach, episodes[n].torn);
      DisciplinedAppend(ZERO, before, CutAt(es, episodes[n].reach, episodes[n].torn));
    }
  }

  function CountReboots(es: seq<Effect>, path: Path): nat {
    if es == [] then 0
    else CountReboots(es[..|es| - 1], path) + if es[|es| - 1] == Reboot(path) then 1 else 0
  }

  /** The torn writes of the path's counter since the last confirmation. */
  function Tears(es: seq<Effect>, path: Path): nat {
    if es == [] || es[|es| - 1] == Confirmed then 0
    else Tears(es[..|es| - 1], path) + if es[|es| - 1] == Tear(path) then 1 else 0
  }

  lemma {:induction false} CountsAreRead(m: Meter, es: seq<Effect>)
    requires Confirmed !in es
    ensures Read(m, es).channel == m.channel + CountReboots(es, ChannelPath)
    ensures Read(m, es).corruption == m.corruption + CountReboots(es, CorruptionPath)
    decreases |es|
  {
    if es != [] {
      CountsAreRead(m, es[..|es| - 1]);
    }
  }

  lemma {:induction false} TearsAreRead(es: seq<Effect>)
    ensures Read(ZERO, es).channelTears == Tears(es, ChannelPath)
    ensures Read(ZERO, es).corruptionTears == Tears(es, CorruptionPath)
    decreases |es|
  {
    if es != [] {
      TearsAreRead(es[..|es| - 1]);
    }
  }

  /** Since the last healthy confirmation there are at most 2 channel-path reboots and one more for each torn
    * write of their counter, and at most 4 corrupted-defaults reboots and three more for each torn write
    * of theirs, whatever the radio reads and wherever the invocations are cut short. */
  lemma RebootsAreBounded(episodes: seq<Episode>, i: nat, j: nat)
    requires Complete(episodes)
    requires i <= j <= |History(episodes)| && Confirmed !in History(episodes)[i..j]
    ensures var h := History(episodes);
      && CountReboots(h[i..j], ChannelPath) <= 2 + Tears(h[..j], ChannelPath)
      && CountReboots(h[i..j], CorruptionPath) <= 4 + 3 * Tears(h[..j], CorruptionPath)
  {
    var h := History(episodes);
    HistoryDisciplined(episodes);
    assert GoodAt(ZERO, h, j);
    assert h[..j] == h[..i] + h[i..j];
    BoundedFrom(h[..i], h[i..j]);
  }

  lemma BoundedFrom(before: seq<Effect>, es: seq<Effect>)
    requires Good(Read(ZERO, before + es)) && Confirmed !in es
    ensures CountReboots(es, ChannelPath) <= 2 + Tears(before + es, ChannelPath)
    ensures CountReboots(es, CorruptionPath) <= 4 + 3 * Tears(before + es, CorruptionPath)
  {
    ReadAppend(ZERO, before, es);
    CountsAreRead(Read(ZERO, before), es);
    TearsAreRead(before + es);
  }

  // ---------- What a channel-path reboot takes ----------

  ghost predicate FailsWithRightCountry(expected: int, readings: seq<Reading>, k: nat)
    requires k <= |readings|
  {
    forall i :: 0 <= i < k ==> !Healthy(readings[i], expected) && readings[i].countryAtBranch
  }

  /** An invocation ends in a channel-path reboot exactly when all three checks fail on a radio whose
    * country matches and fewer than two such reboots are on file; and then it has done three checks,
    * each followed by its chip reset, before it. */
  lemma ChannelRebootExactlyWhen(c: Counters, expected: int, readings: seq<Reading>)
    requires |readings| == MAX_ATTEMPTS
    ensures Reboot(ChannelPath) in Attempts(c, expected, readings, 0) <==>
            FailsWithRightCountry(expected, readings, MAX_ATTEMPTS) && Value(c.reboots) < MAX_CHANNEL_REBOOTS
    ensures Reboot(ChannelPath) in Attempts(c, expected, readings, 0) ==>
      Attempts(c, expected, readings, 0) ==
        FailedAttempt(1, readings[0]) +
        (FailedAttempt(2, readings[1]) + (FailedAttempt(3, readings[2]) + EscalateChannel(c)))
  {
    NoChannelRebootHere(c, 1, expected, readings[0]);
    NoChannelRebootHere(c, 2, expected, readings[1]);
    NoChannelRebootHere(c, 3, expected, readings[2]);
    if FailsWithRightCountry(expected, readings, MAX_ATTEMPTS) && Value(c.reboots) < MAX_CHANNEL_REBOOTS {
      assert Reboot(ChannelPath) == EscalateChannel(c)[2];
    }
    var tail2 := Attempts(c, expected, readings, 2);
    var tail1 := Attempts(c, expected, readings, 1);
  }

  lemma NoChannelRebootHere(c: Counters, attempt: nat, expected: int, r: Reading)
    ensures Reboot(ChannelPath) !in Attempt(c, attempt, expected, r)
  {
  }

  predicate RightCountryFailure(r: Reading, expected: int) {
    r.countryAtBranch && !Healthy(r, expected)
  }

  /** From the k-th check on, the i-th is the first not to see a matching country, and none up to it is
    * healthy. */
  predicate FirstWrongCountry(expected: int, readings: seq<Reading>, k: nat, i: nat) {
    && k <= i < |readings| && !readings[i].countryAtBranch && !Healthy(readings[i], expected)
    && forall j :: k <= j < i ==> RightCountryFailure(readings[j], expected)
  }

  lemma FirstWrongLater(expected: int, readings: seq<Reading>, k: nat, next: nat)
    requires k < |readings| && next == k + 1 && RightCountryFailure(readings[k], expected)
    ensures (exists i :: FirstWrongCountry(expected, readings, k, i)) <==>
            (exists i :: FirstWrongCountry(expected, readings, next, i))
  {
    if i :| FirstWrongCountry(expected, readings, k, i) {
      assert FirstWrongCountry(expected, readings, next, i);
    }
    if i :| FirstWrongCountry(expected, readings, next, i) {
      assert FirstWrongCountry(expected, readings, k, i);
    }
  }

  /** A corrupted-defaults reboot, likewise, exactly when some check is the first not to see a
    * matching country, none before it was healthy, and fewer than four are on file. */
  lemma {:induction false} CorruptionRebootExactlyWhen(c: Counters, expected: int, readings: seq<Reading>, k: nat)
    requires k <= |readings| == MAX_ATTEMPTS
    ensures Reboot(CorruptionPath) in Attempts(c, expected, readings, k) <==>
      Value(c.corruption) < MAX_CORRUPTION_REBOOTS && exists i :: FirstWrongCountry(expected, readings, k, i)
    decreases MAX_ATTEMPTS - k
  {
    if k < MAX_ATTEMPTS {
      CorruptionRebootInAttempt(c, k + 1, expected, readings[k]);
      if RightCountryFailure(readings[k], expected) {
        CorruptionRebootExactlyWhen(c, expected, readings, k + 1);
        FirstWrongLater(expected, readings, k, k + 1);
      } else if !Healthy(readings[k], expected) {
        assert FirstWrongCountry(expected, readings, k, k);
      }
    }
  }

  lemma CorruptionRebootInAttempt(c: Counters, attempt: nat, expected: int, r: Reading)
    ensures Reboot(CorruptionPath) in Attempt(c, attempt, expected, r) <==>
      !Healthy(r, expected) && !r.countryAtBranch && Value(c.corruption) < MAX_CORRUPTION_REBOOTS
  {
    if !Healthy(r, expected) && !r.countryAtBranch && Value(c.corruption) < MAX_CORRUPTION_REBOOTS {
      var e := EscalateCorruption(c);
      assert e[2] == Reboot(CorruptionPath);
      assert e[2] in e;
    }
  }
}
