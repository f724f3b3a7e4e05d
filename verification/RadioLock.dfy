/** The mkdir lock around the radio (agent/wifi-agent.sh, acquire_radio_lock): any number of processes,
  * one shell command per step. Reading `started_at` together with the clock is one step. */
module RadioLock {
  import opened Wrappers

  const MAX_AGE: int := 300
  const MAX_TRIES: nat := 30

  /** `tries` counts the failed mkdirs of the current acquisition. `since` is when mkdir succeeded. */
  datatype Process =
    | Outside
    | Trying(tries: nat)
    | Blocked(tries: nat)      // mkdir has failed, the lock's age is still to be read
    | Reclaiming(tries: nat)   // the lock looked too old, rm -rf comes next
    | Entered(since: int)      // mkdir has succeeded, started_at is not written yet
    | Holding(since: int)
    | GaveUp(tries: nat)

  /** The lock directory with the time in `started_at`, once that has been written. */
  datatype Directory = Directory(startedAt: Option<int>)

  datatype State = State(now: int, lock: Option<Directory>, procs: seq<Process>)

  datatype Action =
    | Begin(p: nat) | Mkdir(p: nat) | ReadAge(p: nat) | Remove(p: nat) | WriteStart(p: nat)
    | Release(p: nat) | Leave(p: nat) | Tick(elapsed: nat)

  function Set(s: State, p: nat, x: Process): State
    requires p < |s.procs|
  {
    s.(procs := s.procs[p := x])
  }

  function StepOf(s: State, a: Action, p: nat): State
    requires p < |s.procs|
  {
    match (a, s.procs[p])
    case (Begin(_), Outside) => Set(s, p, Trying(0))
    case (Mkdir(_), Trying(tries)) =>
      if s.lock.None? then Set(s, p, Entered(s.now)).(lock := Some(Directory(None)))
      else Set(s, p, Blocked(tries))
    case (ReadAge(_), Blocked(tries)) =>
      if s.lock.Some? && s.lock.value.startedAt.Some? && s.now - s.lock.value.startedAt.value > MAX_AGE
      then Set(s, p, Reclaiming(tries))
      else if tries + 1 >= MAX_TRIES then Set(s, p, GaveUp(tries + 1))
      else Set(s, p, Trying(tries + 1))
    case (Remove(_), Reclaiming(tries)) => Set(s, p, Trying(tries)).(lock := None)
    case (WriteStart(_), Entered(since)) =>
      // the redirection fails when the directory is gone
      if s.lock.None? then Set(s, p, Holding(since))
      else Set(s, p, Holding(since)).(lock := Some(Directory(Some(s.now))))
    case (Release(_), Entered(_)) => Set(s, p, Outside).(lock := None)
    case (Release(_), Holding(_)) => Set(s, p, Outside).(lock := None)
    case (Leave(_), GaveUp(_)) => Set(s, p, Outside)
    case _ => s
  }

  function Step(s: State, a: Action): State {
    match a
    case Tick(elapsed) => s.(now := s.now + elapsed)
    case _ => if a.p < |s.procs| then StepOf(s, a, a.p) else s
  }

  function Run(s: State, actions: seq<Action>): State
    decreases |actions|
  {
    if actions == [] then s else Run(Step(s, actions[0]), actions[1..])
  }

  function Start(now: int, n: nat): State {
    State(now, None, seq(n, _ => Outside))
  }

  /** Between a successful mkdir and its release. */
  predicate Inside(x: Process) {
    x.Entered? || x.Holding?
  }

  /** No process has been inside for more than `limit`. */
  ghost predicate NoHoldOver(s: State, limit: int) {
    forall p :: 0 <= p < |s.procs| && Inside(s.procs[p]) ==> s.now - s.procs[p].since <= limit
  }

  ghost predicate NeverHeldOver(s: State, actions: seq<Action>, limit: int) {
    forall k :: 0 <= k <= |actions| ==> NoHoldOver(Run(s, actions[..k]), limit)
  }

  /** The directory is there exactly while one process is inside (`holder`), stamped no earlier than
    * that process went in, and nobody has ever thought it too old. */
  ghost predicate Inv(s: State, holder: Option<nat>) {
    && (s.lock.Some? <==> holder.Some?)
    && (forall p :: 0 <= p < |s.procs| ==> (Inside(s.procs[p]) <==> holder == Some(p)))
    && (holder.Some? ==> holder.value < |s.procs| && StampedAfter(s.lock.value, s.procs[holder.value].since, s.now))
    && (forall p :: 0 <= p < |s.procs| ==> !s.procs[p].Reclaiming? && CountsTries(s.procs[p]))
  }

  predicate StampedAfter(d: Directory, since: int, now: int) {
    since <= now && (d.startedAt.Some? ==> since <= d.startedAt.value)
  }

  /** A process gives up after exactly MAX_TRIES failed mkdirs, never earlier or later. */
  predicate CountsTries(x: Process) {
    match x
    case Trying(tries) => tries < MAX_TRIES
    case Blocked(tries) => tries < MAX_TRIES
    case Reclaiming(tries) => tries < MAX_TRIES
    case GaveUp(tries) => tries == MAX_TRIES
    case _ => true
  }

  lemma MkdirKeepsInv(s: State, holder: Option<nat>, p: nat)
    requires Inv(s, holder)
    ensures var entered := p < |s.procs| && s.procs[p].Trying? && s.lock.None?;
      Inv(Step(s, Mkdir(p)), if entered then Some(p) else holder)
  {
  }

  lemma OtherStepKeepsInv(s: State, holder: Option<nat>, a: Action)
    requires Inv(s, holder) && NoHoldOver(s, MAX_AGE) && !a.Mkdir?
    ensures Inv(Step(s, a), if a.Release? && holder == Some(a.p) then None else holder)
  {
  }

  lemma StepKeepsInv(s: State, holder: Option<nat>, a: Action) returns (holder': Option<nat>)
    requires Inv(s, holder) && NoHoldOver(s, MAX_AGE)
    ensures Inv(Step(s, a), holder')
  {
    if a.Mkdir? {
      MkdirKeepsInv(s, holder, a.p);
      holder' := if a.p < |s.procs| && s.procs[a.p].Trying? && s.lock.None? then Some(a.p) else holder;
    } else {
      OtherStepKeepsInv(s, holder, a);
      holder' := if a.Release? && holder == Some(a.p) then None else holder;
    }
  }

  lemma {:induction false} RunKeepsInv(s: State, holder: Option<nat>, actions: seq<Action>)
    returns (holder': Option<nat>)
    requires Inv(s, holder) && NeverHeldOver(s, actions, MAX_AGE)
    ensures Inv(Run(s, actions), holder')
    decreases |actions|
  {
    if actions == [] {
      holder' := holder;
    } else {
      assert actions[..0] == [];
      assert NoHoldOver(Run(s, actions[..0]), MAX_AGE);
      var mid := StepKeepsInv(s, holder, actions[0]);
      forall k | 0 <= k <= |actions[1..]| ensures NoHoldOver(Run(Step(s, actions[0]), actions[1..][..k]), MAX_AGE) {
        assert actions[..k + 1][0] == actions[0] && actions[..k + 1][1..] == actions[1..][..k];
        assert NoHoldOver(Run(s, actions[..k + 1]), MAX_AGE);
      }
      holder' := RunKeepsInv(Step(s, actions[0]), mid, actions[1..]);
    }
  }

  /** As long as nobody stays inside for more than 300 seconds, at most one process is inside. */
  lemma MutualExclusion(now: int, n: nat, actions: seq<Action>, p: nat, q: nat)
    requires NeverHeldOver(Start(now, n), actions, 300)
    requires var s := Run(Start(now, n), actions);
      p < |s.procs| && q < |s.procs| && Inside(s.procs[p]) && Inside(s.procs[q])
    ensures p == q
  {
    var _ := RunKeepsInv(Start(now, n), None, actions);
  }

  /** In such runs only the process inside ever removes the directory; one that gave up has counted
    * thirty failed mkdirs and its leaving changes nothing but itself. */
  lemma OnlyTheHolderRemoves(now: int, n: nat, actions: seq<Action>, a: Action)
    requires NeverHeldOver(Start(now, n), actions, 300)
    requires var s := Run(Start(now, n), actions);
      s.lock.Some? && Step(s, a).lock.None?
    ensures var s := Run(Start(now, n), actions);
      a.Release? && a.p < |s.procs| && Inside(s.procs[a.p])
  {
    var _ := RunKeepsInv(Start(now, n), None, actions);
  }

  lemma GivingUpTakesThirtyTries(now: int, n: nat, actions: seq<Action>, a: Action)
    requires NeverHeldOver(Start(now, n), actions, 300)
    requires var s := Run(Start(now, n), actions);
      !a.Tick? && a.p < |s.procs| && s.procs[a.p].GaveUp?
    ensures var s := Run(Start(now, n), actions);
      s.procs[a.p].tries == 30 && Step(s, a).lock == s.lock &&
      forall q :: 0 <= q < |s.procs| && q != a.p ==> Step(s, a).procs[q] == s.procs[q]
  {
    var _ := RunKeepsInv(Start(now, n), None, actions);
  }

  /** A release by the process inside frees the lock: whoever tries next is in. */
  lemma ReleasedLockIsFree(now: int, n: nat, actions: seq<Action>, p: nat, q: nat)
    requires NeverHeldOver(Start(now, n), actions, 300)
    requires var s := Run(Start(now, n), actions);
      p < |s.procs| && Inside(s.procs[p]) && q < |s.procs| && s.procs[q].Trying?
    ensures var s := Step(Run(Start(now, n), actions), Release(p));
      && s.lock.None? && s.procs[p].Outside? && q < |s.procs| && s.procs[q].Trying?
      && Inside(Step(s, Mkdir(q)).procs[q])
    ensures var s := Step(Run(Start(now, n), actions), Release(p));
      forall r :: 0 <= r < |s.procs| ==> !Inside(s.procs[r])
  {
    var _ := RunKeepsInv(Start(now, n), None, actions);
  }

  lemma {:induction false} RunAppend(s: State, xs: seq<Action>, ys: seq<Action>)
    ensures Run(s, xs + ys) == Run(Run(s, xs), ys)
    decreases |xs|
  {
    if xs == [] {
      assert xs + ys == ys;
    } else {
      assert (xs + ys)[1..] == xs[1..] + ys;
      RunAppend(Step(s, xs[0]), xs[1..], ys);
    }
  }

  // ---------- Exactly how long a hold may last ----------

  ghost predicate AtMostOneInside(s: State) {
    forall p, q :: 0 <= p < |s.procs| && 0 <= q < |s.procs| && Inside(s.procs[p]) && Inside(s.procs[q]) ==> p == q
  }

  /** In every run of n processes whose holds stay within `limit`, at most one process is inside. */
  ghost predicate Excludes(now: int, n: nat, limit: int) {
    forall actions :: NeverHeldOver(Start(now, n), actions, limit) ==> AtMostOneInside(Run(Start(now, n), actions))
  }

  function Elapsed(actions: seq<Action>): nat {
    if actions == [] then 0 else (if actions[0].Tick? then actions[0].elapsed else 0) + Elapsed(actions[1..])
  }

  lemma {:induction false} ElapsedPrefix(actions: seq<Action>, k: nat)
    requires k <= |actions|
    ensures Elapsed(actions[..k]) <= Elapsed(actions)
    decreases k
  {
    if k > 0 {
      assert actions[..k][1..] == actions[1..][..k - 1];
      ElapsedPrefix(actions[1..], k - 1);
    }
  }

  /** Nobody inside went in before `base`. */
  predicate EnteredSince(s: State, base: int) {
    base <= s.now && forall p :: 0 <= p < |s.procs| && Inside(s.procs[p]) ==> s.procs[p].since >= base
  }

  lemma {:induction false} RunEnteredSince(s: State, actions: seq<Action>, base: int)
    requires EnteredSince(s, base)
    ensures EnteredSince(Run(s, actions), base) && Run(s, actions).now == s.now + Elapsed(actions)
    decreases |actions|
  {
    if actions != [] {
      RunEnteredSince(Step(s, actions[0]), actions[1..], base);
    }
  }

  /** No hold outlasts the run. */
  lemma HeldAtMostElapsed(now: int, n: nat, actions: seq<Action>)
    ensures NeverHeldOver(Start(now, n), actions, Elapsed(actions))
  {
    forall k | 0 <= k <= |actions| ensures NoHoldOver(Run(Start(now, n), actions[..k]), Elapsed(actions)) {
      RunEnteredSince(Start(now, n), actions[..k], now);
      ElapsedPrefix(actions, k);
    }
  }

  /** Process 0 stays inside for `hold` seconds. */
  function Stays(hold: nat): seq<Action> {
    [Begin(0), Mkdir(0), WriteStart(0), Tick(hold)]
  }

  const STEALS: seq<Action> := [Begin(1), Mkdir(1), ReadAge(1), Remove(1), Mkdir(1)]

  function Held(now: int, n: nat, hold: nat): State
    requires n >= 2
  {
    State(now + hold, Some(Directory(Some(now))), Start(now, n).procs[0 := Holding(now)])
  }

  lemma StaysInside(now: int, n: nat, hold: nat)
    requires n >= 2
    ensures Run(Start(now, n), Stays(hold)) == Held(now, n, hold)
  {
    var s := Step(Step(Start(now, n), Begin(0)), Mkdir(0));
    assert Run(Start(now, n), Stays(hold)) == Run(s, Stays(hold)[2..]);
    var t := Step(Step(s, WriteStart(0)), Tick(hold));
    assert Stays(hold)[2..] == [WriteStart(0), Tick(hold)] && Stays(hold)[2..][1..] == [Tick(hold)];
    assert Run(Step(s, WriteStart(0)), [Tick(hold)]) == t;
    assert t.procs == Held(now, n, hold).procs;
  }

  /** Process 1 finds the lock too old, removes it and takes it. */
  lemma StealsInto(now: int, n: nat, hold: nat)
    requires n >= 2 && hold > 300
    ensures Run(Held(now, n, hold), STEALS).procs == Held(now, n, hold).procs[1 := Entered(now + hold)]
  {
    var s := Held(now, n, hold);
    var s2 := Step(Step(s, Begin(1)), Mkdir(1));
    assert Run(s, STEALS) == Run(s2, STEALS[2..]);
    var s4 := Step(Step(s2, ReadAge(1)), Remove(1));
    assert Run(s2, STEALS[2..]) == Run(s4, STEALS[4..]);
    assert STEALS[4..] == [Mkdir(1)];
    assert Run(s4, [Mkdir(1)]) == Step(s4, Mkdir(1));
  }

  /** For every hold over 300 seconds and any number of processes from two on there is a run, with no
    * hold longer than that, that ends with two of them inside. */
  lemma OverlongHoldBreaksExclusion(now: int, n: nat, hold: nat) returns (actions: seq<Action>)
    requires n >= 2 && hold > 300
    ensures NeverHeldOver(Start(now, n), actions, hold)
    ensures var s := Run(Start(now, n), actions);
      |s.procs| == n && Inside(s.procs[0]) && Inside(s.procs[1])
  {
    actions := Stays(hold) + STEALS;
    StaysInside(now, n, hold);
    StealsInto(now, n, hold);
    RunAppend(Start(now, n), Stays(hold), STEALS);
    HeldAtMostElapsed(now, n, actions);
    ElapsedOfTheft(hold);
  }

  lemma ElapsedOfTheft(hold: nat)
    ensures Elapsed(Stays(hold) + STEALS) == hold
  {
    var a := Stays(hold) + STEALS;
    assert a[1..][1..] == a[2..] && a[2..][1..][1..] == a[4..] && a[4..] == STEALS;
    assert STEALS[1..][1..] == STEALS[2..] && STEALS[2..][1..][1..] == STEALS[4..] && STEALS[4..][1..] == [];
    assert Elapsed(STEALS[4..]) == 0;
    assert Elapsed(STEALS[2..]) == 0;
    assert Elapsed(a[2..]) == hold + Elapsed(STEALS);
  }

  /** Holds of up to `limit` always exclude if and only if the limit is at most 300 seconds. */
  lemma ExcludesExactlyWhen(now: int, n: nat, limit: int)
    requires n >= 2
    ensures Excludes(now, n, limit) <==> limit <= 300
  {
    if limit <= 300 {
      forall actions | NeverHeldOver(Start(now, n), actions, limit)
        ensures AtMostOneInside(Run(Start(now, n), actions))
      {
        assert forall k :: 0 <= k <= |actions| ==> NoHoldOver(Run(Start(now, n), actions[..k]), limit);
        var _ := RunKeepsInv(Start(now, n), None, actions);
      }
    } else {
      var actions := OverlongHoldBreaksExclusion(now, n, limit);
      assert !AtMostOneInside(Run(Start(now, n), actions));
    }
  }
}
