/** How many reboots torn writes of a counter add: the bound of RebootBound is reached for every number of
  * them, so the caps hold exactly when no write is torn (agent/wifi-agent.sh:239-258, 472-489). */
module RebootTears {
  import opened Wrappers
  import opened RadioRecovery
  import opened RebootBound

  function Cap(path: Path): nat {
    match path case ChannelPath => MAX_CHANNEL_REBOOTS case CorruptionPath => MAX_CORRUPTION_REBOOTS
  }

  // ---------- A radio that keeps failing ----------

  function Silent(path: Path): Reading {
    Reading(None, false, path.ChannelPath?)
  }

  /** A radio on no channel, its country right (for the channel path) or wrong. */
  function Failing(path: Path): World {
    World(false, false, [true, true, true, true, true, true], Some(1), [Silent(path), Silent(path), Silent(path)])
  }

  /** What comes before the escalation. */
  function Prelude(path: Path): seq<Effect> {
    match path
    case ChannelPath =>
      FailedAttempt(1, Silent(path)) + (FailedAttempt(2, Silent(path)) + FailedAttempt(3, Silent(path)))
    case CorruptionPath =>
      [Checked(1, Silent(path))] + [Event(RadioUnhealthyDetected)] + [Event(CorruptedDefaultsDetected)]
  }

  function Escalate(path: Path, c: Counters): seq<Effect> {
    match path case ChannelPath => EscalateChannel(c) case CorruptionPath => EscalateCorruption(c)
  }

  lemma ChannelFails(c: Counters)
    ensures Attempts(c, 1, Failing(ChannelPath).readings, 0) == Prelude(ChannelPath) + EscalateChannel(c)
  {
    var r, rest := Silent(ChannelPath), EscalateChannel(c);
    var readings := Failing(ChannelPath).readings;
    assert Attempts(c, 1, readings, 2) == FailedAttempt(3, r) + rest;
    assert Attempts(c, 1, readings, 1) == FailedAttempt(2, r) + (FailedAttempt(3, r) + rest);
    Regroup(FailedAttempt(1, r), FailedAttempt(2, r), FailedAttempt(3, r), rest);
  }

  lemma Regroup(a: seq<Effect>, b: seq<Effect>, c: seq<Effect>, d: seq<Effect>)
    ensures a + (b + (c + d)) == (a + (b + c)) + d
  {
  }

  lemma FailingEscalates(path: Path, c: Counters)
    ensures Invocation(c, Failing(path)) == Prelude(path) + Escalate(path, c)
  {
    assert Failing(path).interface[0];
    if path.ChannelPath? {
      ChannelFails(c);
    }
  }

  lemma PreludeIsQuiet(path: Path)
    ensures Quiet(Prelude(path))
  {
  }

  /** A whole invocation, or one that is cut short inside the counter's write. */
  function FailingEpisode(path: Path, torn: bool): Episode {
    Episode(Failing(path), |Prelude(path)| + if torn then 0 else 3, torn)
  }

  function Outcome(path: Path, c: Counters, torn: bool): seq<Effect> {
    if torn then TearOf(Escalate(path, c)[0]) else Escalate(path, c)
  }

  lemma CutAfterPrelude(prelude: seq<Effect>, escalation: seq<Effect>, torn: bool)
    requires 1 <= |escalation| <= 3
    ensures CutAt(prelude + escalation, |prelude| + (if torn then 0 else 3), torn) ==
      prelude + if torn then TearOf(escalation[0]) else escalation
  {
    var all := prelude + escalation;
    assert all[..|prelude|] == prelude && all[|prelude|] == escalation[0];
  }

  lemma EpisodeEffects(path: Path, c: Counters, torn: bool)
    ensures var e := FailingEpisode(path, torn);
      CutAt(Invocation(c, e.world), e.reach, torn) == Prelude(path) + Outcome(path, c, torn)
  {
    FailingEscalates(path, c);
    CutAfterPrelude(Prelude(path), Escalate(path, c), torn);
  }

  // ---------- The count on file, the reboots and the torn writes ----------

  datatype Tally = Tally(count: nat, reboots: nat, tears: nat)

  function TallyOf(path: Path, m: Meter): Tally {
    match path
    case ChannelPath => Tally(Value(m.files.reboots), m.channel, m.channelTears)
    case CorruptionPath => Tally(Value(m.files.corruption), m.corruption, m.corruptionTears)
  }

  /** What a failing invocation does to it. */
  function TallyNext(path: Path, t: Tally, torn: bool): Tally {
    if t.count >= Cap(path) then t
    else if torn then Tally(0, t.reboots, t.tears + 1)
    else Tally(t.count + 1, t.reboots + 1, t.tears)
  }

  lemma {:induction false} QuietReads(m: Meter, es: seq<Effect>)
    requires Quiet(es)
    ensures Read(m, es) == m && Confirmed !in es
    decreases |es|
  {
    if es != [] {
      QuietReads(m, es[..|es| - 1]);
      assert es == es[..|es| - 1] + [es[|es| - 1]];
    }
  }

  lemma ReadOne(m: Meter, a: Effect)
    ensures Read(m, [a]) == Turn(m, a)
  {
    assert [a][..0] == [];
  }

  lemma ReadThree(m: Meter, a: Effect, b: Effect, c: Effect)
    ensures Read(m, [a, b, c]) == Turn(Turn(Turn(m, a), b), c)
  {
    ReadOne(m, a);
    ReadSnoc(m, [a], b);
    ReadSnoc(m, [a] + [b], c);
    assert [a] + [b] + [c] == [a, b, c];
  }

  lemma TornTallies(path: Path, m: Meter)
    ensures TallyOf(path, Read(m, Outcome(path, m.files, true))) == TallyNext(path, TallyOf(path, m), true)
    ensures Confirmed !in Outcome(path, m.files, true)
  {
    if TallyOf(path, m).count < Cap(path) {
      ReadOne(m, Tear(path));
    }
  }

  lemma ChannelTallies(m: Meter)
    ensures TallyOf(ChannelPath, Read(m, EscalateChannel(m.files))) ==
            TallyNext(ChannelPath, TallyOf(ChannelPath, m), false)
    ensures Confirmed !in EscalateChannel(m.files)
  {
    var out := EscalateChannel(m.files);
    if Value(m.files.reboots) >= MAX_CHANNEL_REBOOTS {
      ReadOne(m, out[0]);
    } else {
      ReadThree(m, out[0], out[1], out[2]);
    }
  }

  lemma CorruptionTallies(m: Meter)
    ensures TallyOf(CorruptionPath, Read(m, EscalateCorruption(m.files))) ==
            TallyNext(CorruptionPath, TallyOf(CorruptionPath, m), false)
    ensures Confirmed !in EscalateCorruption(m.files)
  {
    var out := EscalateCorruption(m.files);
    if Value(m.files.corruption) >= MAX_CORRUPTION_REBOOTS {
      ReadOne(m, out[0]);
    } else {
      CorruptionReboots(m, out);
    }
  }

  lemma CorruptionReboots(m: Meter, out: seq<Effect>)
    requires out == EscalateCorruption(m.files) && Value(m.files.corruption) < MAX_CORRUPTION_REBOOTS
    ensures TallyOf(CorruptionPath, Read(m, out)) == TallyNext(CorruptionPath, TallyOf(CorruptionPath, m), false)
  {
    ReadThree(m, out[0], out[1], out[2]);
  }

  lemma OutcomeTallies(path: Path, m: Meter, torn: bool)
    ensures TallyOf(path, Read(m, Outcome(path, m.files, torn))) == TallyNext(path, TallyOf(path, m), torn)
    ensures Confirmed !in Outcome(path, m.files, torn)
  {
    if torn {
      TornTallies(path, m);
    } else {
      match path
      case ChannelPath => ChannelTallies(m);
      case CorruptionPath => CorruptionTallies(m);
    }
  }

  lemma EpisodeTallies(path: Path, m: Meter, torn: bool)
    ensures var e := FailingEpisode(path, torn);
      var es := CutAt(Invocation(m.files, e.world), e.reach, torn);
      TallyOf(path, Read(m, es)) == TallyNext(path, TallyOf(path, m), torn) && Confirmed !in es
  {
    EpisodeEffects(path, m.files, torn);
    PreludeIsQuiet(path);
    QuietReads(m, Prelude(path));
    ReadAppend(m, Prelude(path), Outcome(path, m.files, torn));
    OutcomeTallies(path, m, torn);
  }

  // ---------- Runs of failing invocations ----------

  function FailingEpisodes(path: Path, tears: seq<bool>): (episodes: seq<Episode>)
    ensures |episodes| == |tears| && Complete(episodes)
  {
    seq(|tears|, k requires 0 <= k < |tears| => FailingEpisode(path, tears[k]))
  }

  function Tallied(path: Path, tears: seq<bool>): Tally {
    if tears == [] then Tally(0, 0, 0)
    else TallyNext(path, Tallied(path, tears[..|tears| - 1]), tears[|tears| - 1])
  }

  lemma HistorySnoc(path: Path, tears: seq<bool>, torn: bool)
    ensures var before := History(FailingEpisodes(path, tears));
      var e := FailingEpisode(path, torn);
      History(FailingEpisodes(path, tears + [torn])) ==
        before + CutAt(Invocation(After(FRESH, before), e.world), e.reach, torn)
  {
    var all := FailingEpisodes(path, tears + [torn]);
    assert all[..|tears|] == FailingEpisodes(path, tears);
    assert all[|tears|] == FailingEpisode(path, torn);
  }

  lemma TalliedSnoc(path: Path, tears: seq<bool>, torn: bool)
    ensures Tallied(path, tears + [torn]) == TallyNext(path, Tallied(path, tears), torn)
  {
    assert (tears + [torn])[..|tears|] == tears;
  }

  lemma {:induction false} HistoryIsTallied(path: Path, tears: seq<bool>)
    ensures var h := History(FailingEpisodes(path, tears));
      TallyOf(path, Read(ZERO, h)) == Tallied(path, tears) && Confirmed !in h
    decreases |tears|
  {
    if tears == [] {
      assert FailingEpisodes(path, tears) == [];
    } else {
      var before, torn := tears[..|tears| - 1], tears[|tears| - 1];
      assert tears == before + [torn];
      HistoryIsTallied(path, before);
      HistorySnoc(path, before, torn);
      TalliedSnoc(path, before, torn);
      var h := History(FailingEpisodes(path, before));
      FilesAgree(ZERO, h);
      EpisodeTallies(path, Read(ZERO, h), torn);
      var e := FailingEpisode(path, torn);
      ReadAppend(ZERO, h, CutAt(Invocation(After(FRESH, h), e.world), e.reach, torn));
    }
  }

  function Wholes(n: nat): seq<bool> {
    if n == 0 then [] else Wholes(n - 1) + [false]
  }

  lemma WholesSnoc(tears: seq<bool>, n: nat)
    requires n > 0
    ensures tears + Wholes(n) == (tears + Wholes(n - 1)) + [false]
  {
  }

  lemma {:induction false} WholesCount(path: Path, tears: seq<bool>, n: nat)
    requires Tallied(path, tears).count + n <= Cap(path)
    ensures var t := Tallied(path, tears);
      Tallied(path, tears + Wholes(n)) == Tally(t.count + n, t.reboots + n, t.tears)
  {
    if n == 0 {
      assert tears + Wholes(0) == tears;
    } else {
      var before := tears + Wholes(n - 1);
      WholesCount(path, tears, n - 1);
      WholesSnoc(tears, n);
      TalliedSnoc(path, before, false);
      WholeCounts(path, Tallied(path, before));
    }
  }

  lemma WholeCounts(path: Path, t: Tally)
    requires t.count < Cap(path)
    ensures TallyNext(path, t, false) == Tally(t.count + 1, t.reboots + 1, t.tears)
  {
  }

  /** `torn` times up to just below the cap and then a torn write. */
  function Rounds(path: Path, torn: nat): seq<bool> {
    if torn == 0 then [] else Rounds(path, torn - 1) + Wholes(Cap(path) - 1) + [true]
  }

  lemma {:induction false} RoundsCount(path: Path, torn: nat)
    ensures Tallied(path, Rounds(path, torn)) == Tally(0, torn * (Cap(path) - 1), torn)
  {
    if torn > 0 {
      RoundsCount(path, torn - 1);
      WholesCount(path, Rounds(path, torn - 1), Cap(path) - 1);
      TalliedSnoc(path, Rounds(path, torn - 1) + Wholes(Cap(path) - 1), true);
      assert (torn - 1) * (Cap(path) - 1) + (Cap(path) - 1) == torn * (Cap(path) - 1);
    }
  }

  // ---------- The bound is reached ----------

  /** For every number of torn writes there is a run that reaches the bound of RebootsAreBounded. */
  lemma BoundIsReached(path: Path, torn: nat) returns (episodes: seq<Episode>)
    ensures Complete(episodes) && Confirmed !in History(episodes) && Tears(History(episodes), path) == torn
    ensures CountReboots(History(episodes), path) == if path.ChannelPath? then 2 + torn else 4 + 3 * torn
  {
    var tears := Rounds(path, torn) + Wholes(Cap(path));
    RoundsCount(path, torn);
    WholesCount(path, Rounds(path, torn), Cap(path));
    HistoryIsTallied(path, tears);
    episodes := FailingEpisodes(path, tears);
    CountsAreRead(ZERO, History(episodes));
    TearsAreRead(History(episodes));
    MostReboots(path, torn);
  }

  lemma MostReboots(path: Path, torn: nat)
    ensures Cap(path) + torn * (Cap(path) - 1) == if path.ChannelPath? then 2 + torn else 4 + 3 * torn
  {
    if path.ChannelPath? {
      assert Cap(path) - 1 == 1;
    } else {
      assert Cap(path) - 1 == 3;
    }
  }

  /** No run with at most `torn` torn writes since the last confirmation has more than the cap's reboots. */
  ghost predicate CapHolds(path: Path, torn: nat) {
    forall episodes: seq<Episode> | Complete(episodes) && Tears(History(episodes), path) <= torn &&
      Confirmed !in History(episodes) :: CountReboots(History(episodes), path) <= if path.ChannelPath? then 2 else 4
  }

  /** The caps of 2 and 4 hold if and only if no write of their counter is cut short. */
  lemma CapHoldsExactlyWithoutTears(path: Path, torn: nat)
    ensures CapHolds(path, torn) <==> torn == 0
  {
    if torn == 0 {
      forall episodes: seq<Episode> | Complete(episodes) && Tears(History(episodes), path) <= torn &&
        Confirmed !in History(episodes)
        ensures CountReboots(History(episodes), path) <= if path.ChannelPath? then 2 else 4
      {
        var h := History(episodes);
        assert h[0..|h|] == h && h[..|h|] == h;
        RebootsAreBounded(episodes, 0, |h|);
      }
    } else {
      var episodes := BoundIsReached(path, torn);
    }
  }
}
