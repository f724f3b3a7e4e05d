/** Offline and back-online alerts (app/main.py, _get_or_create_device and check_device_liveness) of one device
  * whose row exists. The liveness job and a telemetry ingest each stop at every await, so their SELECT,
  * their UPDATEs, the push notification and the event row are separate steps that interleave freely, and
  * either job may end at any of them: a database error, a shutdown. */
module Liveness {
  import opened Wrappers

  datatype Alert = Offline | Online

  /** A change of offline_alerted is reported on both. */
  datatype Channel = Page | Record

  /** Where a job stands between two awaits. `cutoff` is the time before which the check's SELECT took a device for
    * stale, `k` the number of the UPDATE a job still has to report. */
  datatype Task = Idle | Stalled(cutoff: int) | Selected(alerted: bool) | Clearing | Unsent(k: nat) | Paged(k: nat)

  /** A channel: the alerts sent on it, the number of the UPDATE each one is about, and the numbers of those
    * whose job ended owing the report. The last two record history: whether a report was ever made while
    * the other job owed an earlier one, and whether one was ever made out of turn. */
  datatype Reports = Reports(log: seq<Alert>, numbers: seq<nat>, lost: seq<nat>, overtook: bool, displaced: bool)

  /** Times count from the start of the run. `moves` lists the UPDATEs of offline_alerted. */
  datatype State = State(now: int, lastSeen: Option<int>, flag: bool, live: Task, ingest: Task,
                         moves: seq<Alert>, pages: Reports, records: Reports)
  {
    function On(c: Channel): Reports {
      match c case Page => pages case Record => records
    }
  }

  datatype Action =
    | Tick(elapsed: nat)
    | LivenessSelects(threshold: nat)
    | LivenessUpdates
    | LivenessPages
    | LivenessRecords
    | LivenessEnds
    | IngestSelects
    | IngestTouches
    | IngestClears
    | IngestPages
    | IngestRecords
    | IngestEnds

  /** The job has still to report on the channel. */
  predicate Waiting(t: Task, c: Channel) {
    t.Unsent? || (c == Record && t.Paged?)
  }

  predicate Overtakes(k: nat, other: Task, c: Channel) {
    Waiting(other, c) && other.k < k
  }

  function One(b: bool): nat {
    if b then 1 else 0
  }

  /** Change k, of `moves` so far, is about to be reported: the reports lost, one if the other job owes one, and
    * one if there has been a later change, are odd in number. */
  predicate OutOfTurn(r: Reports, k: nat, other: Task, c: Channel, moves: nat) {
    (|r.lost| + One(Waiting(other, c)) + One(k + 1 < moves)) % 2 != 0
  }

  function Reported(r: Reports, a: Alert, k: nat, other: Task, c: Channel, moves: nat): Reports {
    Reports(r.log + [a], r.numbers + [k], r.lost, r.overtook || Overtakes(k, other, c),
            r.displaced || OutOfTurn(r, k, other, c, moves))
  }

  /** The job ends: what it owes the channel is never reported. */
  function Abandoned(r: Reports, t: Task, c: Channel): Reports {
    if Waiting(t, c) then r.(lost := r.lost + [t.k]) else r
  }

  predicate SeenFrom(lastSeen: Option<int>, t: int) {
    lastSeen.Some? && lastSeen.value >= t
  }

  function Step(s: State, a: Action): State {
    match a
    case Tick(elapsed) => s.(now := s.now + elapsed)
    case LivenessSelects(threshold) =>
      if s.live.Idle? && !s.flag && !SeenFrom(s.lastSeen, s.now - threshold)
      then s.(live := Stalled(s.now - threshold)) else s
    case LivenessUpdates =>
      if s.live.Stalled? then s.(flag := true, moves := s.moves + [Offline], live := Unsent(|s.moves|)) else s
    case LivenessPages =>
      if s.live.Unsent? then
        s.(pages := Reported(s.pages, Offline, s.live.k, s.ingest, Page, |s.moves|), live := Paged(s.live.k))
      else s
    case LivenessRecords =>
      if s.live.Paged? then
        s.(records := Reported(s.records, Offline, s.live.k, s.ingest, Record, |s.moves|), live := Idle)
      else s
    case LivenessEnds =>
      s.(live := Idle, pages := Abandoned(s.pages, s.live, Page), records := Abandoned(s.records, s.live, Record))
    case IngestSelects =>
      if s.ingest.Idle? then s.(ingest := Selected(s.flag)) else s
    case IngestTouches =>
      if s.ingest.Selected? then
        s.(lastSeen := Some(s.now), ingest := if s.ingest.alerted then Clearing else Idle)
      else s
    case IngestClears =>
      if s.ingest.Clearing? then s.(flag := false, moves := s.moves + [Online], ingest := Unsent(|s.moves|)) else s
    case IngestPages =>
      if s.ingest.Unsent? then
        s.(pages := Reported(s.pages, Online, s.ingest.k, s.live, Page, |s.moves|), ingest := Paged(s.ingest.k))
      else s
    case IngestRecords =>
      if s.ingest.Paged? then
        s.(records := Reported(s.records, Online, s.ingest.k, s.live, Record, |s.moves|), ingest := Idle)
      else s
    case IngestEnds =>
      s.(ingest := Idle, pages := Abandoned(s.pages, s.ingest, Page), records := Abandoned(s.records, s.ingest, Record))
  }

  const SILENT := Reports([], [], [], false, false)

  /** A registered device. */
  function Start(lastSeen: Option<int>): State {
    State(0, lastSeen, false, Idle, Idle, [], SILENT, SILENT)
  }

  function Run(s: State, actions: seq<Action>): State {
    if actions == [] then s else Step(Run(s, actions[..|actions| - 1]), actions[|actions| - 1])
  }

  // ---------- The flag ----------

  /** Offline first, then strictly alternating. */
  predicate Alternates(log: seq<Alert>) {
    (log != [] ==> log[0] == Offline) && forall i, j :: 0 <= i < |log| && j == i + 1 < |log| ==> log[j] != log[i]
  }

  /** A task's unreported UPDATE is its own and one of the last two. */
  predicate Owes(t: Task, moves: seq<Alert>, a: Alert) {
    t.Unsent? || t.Paged? ==> |moves| - 2 <= t.k < |moves| && moves[t.k] == a
  }

  ghost predicate Inv(s: State) {
    && Alternates(s.moves)
    && (s.flag <==> s.moves != [] && s.moves[|s.moves| - 1] == Offline)
    && !s.live.Clearing? && !s.live.Selected? && !s.ingest.Stalled? && (s.live.Stalled? ==> !s.flag)
    && (s.ingest.Clearing? || (s.ingest.Selected? && s.ingest.alerted) ==> s.flag)
    && Owes(s.live, s.moves, Offline) && Owes(s.ingest, s.moves, Online)
  }

  lemma StepKeepsInv(s: State, a: Action)
    requires Inv(s)
    ensures Inv(Step(s, a))
  {
  }

  lemma MoveFlips(s: State, a: Action)
    requires Inv(s) && Step(s, a).moves != s.moves
    ensures Step(s, a).flag != s.flag
  {
  }

  // ---------- The order of a channel's reports ----------

  function KindOf(k: nat): Alert {
    if k % 2 == 0 then Offline else Online
  }

  lemma {:induction false} AlternatesByNumber(log: seq<Alert>)
    ensures Alternates(log) <==> forall i :: 0 <= i < |log| ==> log[i] == KindOf(i)
    decreases |log|
  {
    if log != [] {
      var n := |log| - 1;
      AlternatesByNumber(log[..n]);
      if Alternates(log) {
        assert Alternates(log[..n]);
        assert n > 0 ==> log[n] != log[n - 1] && log[..n][n - 1] == KindOf(n - 1);
      }
    }
  }

  /** What a channel holds: the log alternates unless a report was out of turn; and as long as none is lost it
    * is the changes in order but for those still owed, unless a report overtook another. */
  ghost predicate Faithful(moves: seq<Alert>, r: Reports, live: Task, ingest: Task, c: Channel) {
    && |r.log| + |r.lost| + One(Waiting(live, c)) + One(Waiting(ingest, c)) == |moves|
    && (Alternates(r.log) <==> !r.displaced)
    && (r.lost == [] ==> (r.overtook <==> r.displaced))
    && (r.lost == [] && !r.overtook ==>
          && r.log <= moves
          && (Waiting(live, c) ==> |r.log| <= live.k) && (Waiting(ingest, c) ==> |r.log| <= ingest.k))
  }

  ghost predicate ChannelInv(s: State, c: Channel) {
    Faithful(s.moves, s.On(c), s.live, s.ingest, c)
  }

  lemma UpdateKeeps(moves: seq<Alert>, r: Reports, live: Task, ingest: Task, c: Channel, a: Alert)
    requires Faithful(moves, r, live, ingest, c)
    requires !Waiting(if a == Offline then live else ingest, c)
    ensures a == Offline ==> Faithful(moves + [a], r, Unsent(|moves|), ingest, c)
    ensures a == Online ==> Faithful(moves + [a], r, live, Unsent(|moves|), c)
  {
  }

  /** A log goes on alternating exactly when the next report is of the kind its place calls for. */
  lemma TurnKeepsAlternating(moves: seq<Alert>, log: seq<Alert>, k: nat)
    requires Alternates(moves) && k < |moves|
    ensures Alternates(log + [moves[k]]) <==> Alternates(log) && moves[k] == KindOf(|log|)
  {
    var more := log + [moves[k]];
    AlternatesByNumber(moves);
    AlternatesByNumber(log);
    AlternatesByNumber(more);
    assert more[|log|] == moves[k];
    assert forall i :: 0 <= i < |log| ==> more[i] == log[i];
  }

  /** The change about to be reported is of the kind its place calls for exactly when it is in turn. */
  lemma InTurn(moves: seq<Alert>, r: Reports, k: nat, other: Task, c: Channel)
    requires Alternates(moves) && |moves| - 2 <= k < |moves|
    requires |r.log| + |r.lost| + 1 + One(Waiting(other, c)) == |moves|
    ensures moves[k] == KindOf(|r.log|) <==> !OutOfTurn(r, k, other, c, |moves|)
  {
    AlternatesByNumber(moves);
    SameParity(k, |r.log|, |r.lost| + One(Waiting(other, c)), |moves|);
  }

  lemma SameParity(k: nat, made: nat, missing: nat, moves: nat)
    requires made + missing + 1 == moves && moves - 2 <= k < moves
    ensures KindOf(k) == KindOf(made) <==> (missing + One(k + 1 < moves)) % 2 == 0
  {
    assert k - made == missing - (moves - 1 - k);
  }

  /** While nothing is lost, a report is out of turn exactly when it overtakes. */
  lemma NextInOrder(moves: seq<Alert>, r: Reports, mine: Task, other: Task, c: Channel)
    requires Waiting(mine, c) && r.lost == [] && !r.overtook
    requires |r.log| + 1 + One(Waiting(other, c)) == |moves| && r.log <= moves && |r.log| <= mine.k < |moves|
    requires Waiting(other, c) ==> |r.log| <= other.k < |moves| && other.k != mine.k
    ensures OutOfTurn(r, mine.k, other, c, |moves|) <==> Overtakes(mine.k, other, c)
    ensures !Overtakes(mine.k, other, c) ==>
      r.log + [moves[mine.k]] <= moves && (Waiting(other, c) ==> |r.log| + 1 <= other.k)
  {
  }

  /** One job reports its k-th UPDATE, the other being at `other`. */
  lemma ReportKeeps(moves: seq<Alert>, r: Reports, mine: Task, other: Task, after: Task, c: Channel, a: Alert)
    requires Alternates(moves) && Waiting(mine, c) && !Waiting(after, c)
    requires Owes(mine, moves, a) && Owes(other, moves, if a == Offline then Online else Offline)
    requires if a == Offline then Faithful(moves, r, mine, other, c) else Faithful(moves, r, other, mine, c)
    ensures var next := Reported(r, a, mine.k, other, c, |moves|);
      if a == Offline then Faithful(moves, next, after, other, c) else Faithful(moves, next, other, after, c)
  {
    TurnKeepsAlternating(moves, r.log, mine.k);
    InTurn(moves, r, mine.k, other, c);
    if r.lost == [] && !r.overtook {
      NextInOrder(moves, r, mine, other, c);
    }
  }

  lemma LossKeeps(moves: seq<Alert>, r: Reports, mine: Task, other: Task, c: Channel, live: bool)
    requires if live then Faithful(moves, r, mine, other, c) else Faithful(moves, r, other, mine, c)
    ensures var next := Abandoned(r, mine, c);
      if live then Faithful(moves, next, Idle, other, c) else Faithful(moves, next, other, Idle, c)
  {
  }

  lemma LivenessUpdateKeeps(s: State, c: Channel)
    requires Inv(s) && ChannelInv(s, c) && s.live.Stalled?
    ensures ChannelInv(Step(s, LivenessUpdates), c)
  {
    UpdateKeeps(s.moves, s.On(c), s.live, s.ingest, c, Offline);
  }

  lemma IngestUpdateKeeps(s: State, c: Channel)
    requires Inv(s) && ChannelInv(s, c) && s.ingest.Clearing?
    ensures ChannelInv(Step(s, IngestClears), c)
  {
    UpdateKeeps(s.moves, s.On(c), s.live, s.ingest, c, Online);
  }

  predicate LivenessReports(s: State, a: Action, c: Channel) {
    (a.LivenessPages? && c == Page && s.live.Unsent?) || (a.LivenessRecords? && c == Record && s.live.Paged?)
  }

  predicate IngestReports(s: State, a: Action, c: Channel) {
    (a.IngestPages? && c == Page && s.ingest.Unsent?) || (a.IngestRecords? && c == Record && s.ingest.Paged?)
  }

  lemma LivenessReportKeeps(s: State, a: Action, c: Channel)
    requires Inv(s) && ChannelInv(s, c)
    requires LivenessReports(s, a, c)
    ensures ChannelInv(Step(s, a), c)
  {
    ReportKeeps(s.moves, s.On(c), s.live, s.ingest, Step(s, a).live, c, Offline);
  }

  lemma IngestReportKeeps(s: State, a: Action, c: Channel)
    requires Inv(s) && ChannelInv(s, c)
    requires IngestReports(s, a, c)
    ensures ChannelInv(Step(s, a), c)
  {
    ReportKeeps(s.moves, s.On(c), s.ingest, s.live, Step(s, a).ingest, c, Online);
  }

  lemma EndKeeps(s: State, c: Channel)
    requires ChannelInv(s, c)
    ensures ChannelInv(Step(s, LivenessEnds), c) && ChannelInv(Step(s, IngestEnds), c)
  {
    LossKeeps(s.moves, s.On(c), s.live, s.ingest, c, true);
    LossKeeps(s.moves, s.On(c), s.ingest, s.live, c, false);
  }

  /** A step that neither changes the flag nor reports nor loses anything on the channel. */
  predicate Bystands(s: State, a: Action, c: Channel) {
    var t := Step(s, a);
    && t.moves == s.moves && t.On(c) == s.On(c)
    && Waiting(t.live, c) == Waiting(s.live, c) && Waiting(t.ingest, c) == Waiting(s.ingest, c)
    && (Waiting(t.live, c) ==> t.live.k == s.live.k) && (Waiting(t.ingest, c) ==> t.ingest.k == s.ingest.k)
  }

  lemma BystanderKeeps(s: State, a: Action, c: Channel)
    requires ChannelInv(s, c) && Bystands(s, a, c)
    ensures ChannelInv(Step(s, a), c)
  {
  }

  lemma StepKeepsChannel(s: State, a: Action, c: Channel)
    requires Inv(s) && ChannelInv(s, c)
    ensures ChannelInv(Step(s, a), c)
  {
    if a.LivenessUpdates? && s.live.Stalled? {
      LivenessUpdateKeeps(s, c);
    } else if a.IngestClears? && s.ingest.Clearing? {
      IngestUpdateKeeps(s, c);
    } else if LivenessReports(s, a, c) {
      LivenessReportKeeps(s, a, c);
    } else if IngestReports(s, a, c) {
      IngestReportKeeps(s, a, c);
    } else if a.LivenessEnds? || a.IngestEnds? {
      EndKeeps(s, c);
    } else {
      BystanderKeeps(s, a, c);
    }
  }

  // ---------- Which change each report is about ----------

  predicate OwedBy(t: Task, c: Channel, n: nat) {
    Waiting(t, c) && t.k == n
  }

  /** In how many places change n is: reported, lost, or owed by a job. */
  function Places(r: Reports, live: Task, ingest: Task, c: Channel, n: nat): nat {
    One(n in r.numbers) + One(n in r.lost) + One(OwedBy(live, c, n)) + One(OwedBy(ingest, c, n))
  }

  predicate Distinct(numbers: seq<nat>) {
    forall i, j :: 0 <= i < j < |numbers| ==> numbers[i] != numbers[j]
  }

  /** Every change is in exactly one place, once. */
  ghost predicate Placed(moves: seq<Alert>, r: Reports, live: Task, ingest: Task, c: Channel) {
    && (forall n: nat :: n < |moves| ==> Places(r, live, ingest, c, n) == 1)
    && Distinct(r.numbers) && Distinct(r.lost) && Within(r.numbers, |moves|) && Within(r.lost, |moves|)
    && Says(moves, r)
  }

  predicate Within(numbers: seq<nat>, n: nat) {
    forall i :: 0 <= i < |numbers| ==> numbers[i] < n
  }

  /** Each alert says what its change was. */
  predicate Says(moves: seq<Alert>, r: Reports) {
    && |r.log| == |r.numbers|
    && forall i :: 0 <= i < |r.log| ==> r.numbers[i] < |moves| && r.log[i] == moves[r.numbers[i]]
  }

  ghost predicate PlacesInv(s: State, c: Channel) {
    Placed(s.moves, s.On(c), s.live, s.ingest, c)
  }

  /** One job, now at Unsent(|moves|), has made a change; `live` and `ingest` are where the jobs are then. */
  lemma UpdatePlaces(moves: seq<Alert>, r: Reports, live0: Task, ingest0: Task, live: Task, ingest: Task,
                     c: Channel, a: Alert)
    requires Placed(moves, r, live0, ingest0, c)
    requires (Waiting(live0, c) ==> live0.k < |moves|) && (Waiting(ingest0, c) ==> ingest0.k < |moves|)
    requires (!Waiting(live0, c) && live == Unsent(|moves|) && ingest == ingest0) ||
             (!Waiting(ingest0, c) && ingest == Unsent(|moves|) && live == live0)
    ensures Placed(moves + [a], r, live, ingest, c)
  {
    forall n: nat | n < |moves + [a]| ensures Places(r, live, ingest, c, n) == 1 {
      if n < |moves| {
        assert Places(r, live0, ingest0, c, n) == 1;
      }
    }
  }

  /** Change k goes from the job that owes it to the end of a list. */
  lemma HandedOver(list: seq<nat>, k: nat)
    requires Distinct(list) && k !in list
    ensures Distinct(list + [k]) && forall n :: n in list + [k] <==> n in list || n == k
  {
  }

  /** The job that owed k owes nothing now, and k has been added to one of the lists. */
  lemma MovedOn(moves: seq<Alert>, r: Reports, live0: Task, ingest0: Task, next: Reports, live: Task, ingest: Task,
                c: Channel, k: nat)
    requires forall n: nat :: n < |moves| ==> Places(r, live0, ingest0, c, n) == 1
    requires (OwedBy(live0, c, k) && !Waiting(live, c) && ingest == ingest0) ||
             (OwedBy(ingest0, c, k) && !Waiting(ingest, c) && live == live0)
    requires k < |moves| && k !in r.numbers && k !in r.lost
    requires ((forall n :: n in next.numbers <==> n in r.numbers || n == k) && next.lost == r.lost) ||
             ((forall n :: n in next.lost <==> n in r.lost || n == k) && next.numbers == r.numbers)
    ensures forall n: nat :: n < |moves| ==> Places(next, live, ingest, c, n) == 1
  {
    assert Places(r, live0, ingest0, c, k) == 1;
    forall n: nat | n < |moves| ensures Places(next, live, ingest, c, n) == 1 {
      assert Places(r, live0, ingest0, c, n) == 1;
    }
  }

  lemma ReportPlaces(moves: seq<Alert>, r: Reports, live0: Task, ingest0: Task, live: Task, ingest: Task, c: Channel,
                     a: Alert, k: nat, other: Task)
    requires Placed(moves, r, live0, ingest0, c) && k < |moves| && moves[k] == a
    requires (OwedBy(live0, c, k) && !Waiting(live, c) && ingest == ingest0) ||
             (OwedBy(ingest0, c, k) && !Waiting(ingest, c) && live == live0)
    ensures Placed(moves, Reported(r, a, k, other, c, |moves|), live, ingest, c)
  {
    assert Places(r, live0, ingest0, c, k) == 1;
    HandedOver(r.numbers, k);
    MovedOn(moves, r, live0, ingest0, Reported(r, a, k, other, c, |moves|), live, ingest, c, k);
  }

  lemma LossPlaces(moves: seq<Alert>, r: Reports, live0: Task, ingest0: Task, live: Task, ingest: Task,
                   c: Channel, k: nat)
    requires Placed(moves, r, live0, ingest0, c) && k < |moves|
    requires (OwedBy(live0, c, k) && !Waiting(live, c) && ingest == ingest0) ||
             (OwedBy(ingest0, c, k) && !Waiting(ingest, c) && live == live0)
    ensures Placed(moves, r.(lost := r.lost + [k]), live, ingest, c)
  {
    assert Places(r, live0, ingest0, c, k) == 1;
    HandedOver(r.lost, k);
    MovedOn(moves, r, live0, ingest0, r.(lost := r.lost + [k]), live, ingest, c, k);
  }

  lemma BystanderPlaces(s: State, a: Action, c: Channel)
    requires PlacesInv(s, c) && Bystands(s, a, c)
    ensures PlacesInv(Step(s, a), c)
  {
    var t := Step(s, a);
    forall n: nat | n < |s.moves| ensures Places(t.On(c), t.live, t.ingest, c, n) == 1 {
      assert Places(s.On(c), s.live, s.ingest, c, n) == 1;
    }
  }

  lemma UpdateStepPlaces(s: State, a: Action, c: Channel)
    requires Inv(s) && PlacesInv(s, c)
    requires (a.LivenessUpdates? && s.live.Stalled?) || (a.IngestClears? && s.ingest.Clearing?)
    ensures PlacesInv(Step(s, a), c)
  {
    var t := Step(s, a);
    UpdatePlaces(s.moves, s.On(c), s.live, s.ingest, t.live, t.ingest, c,
                 if a.LivenessUpdates? then Offline else Online);
  }

  lemma LivenessReportPlaces(s: State, a: Action, c: Channel)
    requires Inv(s) && PlacesInv(s, c)
    requires LivenessReports(s, a, c)
    ensures PlacesInv(Step(s, a), c)
  {
    ReportPlaces(s.moves, s.On(c), s.live, s.ingest, Step(s, a).live, s.ingest, c, Offline, s.live.k, s.ingest);
  }

  lemma IngestReportPlaces(s: State, a: Action, c: Channel)
    requires Inv(s) && PlacesInv(s, c)
    requires IngestReports(s, a, c)
    ensures PlacesInv(Step(s, a), c)
  {
    ReportPlaces(s.moves, s.On(c), s.live, s.ingest, s.live, Step(s, a).ingest, c, Online, s.ingest.k, s.live);
  }

  lemma EndPlaces(s: State, a: Action, c: Channel)
    requires Inv(s) && PlacesInv(s, c)
    requires (a.LivenessEnds? && Waiting(s.live, c)) || (a.IngestEnds? && Waiting(s.ingest, c))
    ensures PlacesInv(Step(s, a), c)
  {
    var t := Step(s, a);
    LossPlaces(s.moves, s.On(c), s.live, s.ingest, t.live, t.ingest, c,
               if a.LivenessEnds? then s.live.k else s.ingest.k);
  }

  lemma StepKeepsPlaces(s: State, a: Action, c: Channel)
    requires Inv(s) && PlacesInv(s, c)
    ensures PlacesInv(Step(s, a), c)
  {
    if (a.LivenessUpdates? && s.live.Stalled?) || (a.IngestClears? && s.ingest.Clearing?) {
      UpdateStepPlaces(s, a, c);
    } else if LivenessReports(s, a, c) {
      LivenessReportPlaces(s, a, c);
    } else if IngestReports(s, a, c) {
      IngestReportPlaces(s, a, c);
    } else if (a.LivenessEnds? && Waiting(s.live, c)) || (a.IngestEnds? && Waiting(s.ingest, c)) {
      EndPlaces(s, a, c);
    } else {
      BystanderPlaces(s, a, c);
    }
  }

  // ---------- Over every run ----------

  lemma {:induction false} RunKeeps(lastSeen: Option<int>, actions: seq<Action>, c: Channel)
    ensures var s := Run(Start(lastSeen), actions); Inv(s) && ChannelInv(s, c) && PlacesInv(s, c)
    decreases |actions|
  {
    if actions != [] {
      var n := |actions| - 1;
      RunKeeps(lastSeen, actions[..n], c);
      var s := Run(Start(lastSeen), actions[..n]);
      StepKeepsInv(s, actions[n]);
      StepKeepsChannel(s, actions[n], c);
      StepKeepsPlaces(s, actions[n], c);
    }
  }

  /** However the two jobs interleave and wherever they end, the UPDATEs of the flag strictly alternate: none
    * repeats the value the flag already has. */
  lemma TransitionsAlternate(lastSeen: Option<int>, actions: seq<Action>, a: Action)
    ensures var s := Run(Start(lastSeen), actions);
      && Alternates(s.moves) && (s.flag <==> s.moves != [] && s.moves[|s.moves| - 1] == Offline)
      && (Step(s, a).moves != s.moves ==> Step(s, a).flag != s.flag)
  {
    RunKeeps(lastSeen, actions, Page);
    var s := Run(Start(lastSeen), actions);
    if Step(s, a).moves != s.moves {
      MoveFlips(s, a);
    }
  }

  /** On each channel every change is reported at most once, with an alert that says what it was; and it is
    * reported, or still owed by the job that made it, unless it is lost. */
  lemma EachChangeReportedOnce(lastSeen: Option<int>, actions: seq<Action>, c: Channel, n: nat)
    requires n < |Run(Start(lastSeen), actions).moves|
    ensures var s := Run(Start(lastSeen), actions); var r := s.On(c);
      && Distinct(r.numbers) && Says(s.moves, r)
      && (n in r.numbers ==> n !in r.lost && !OwedBy(s.live, c, n) && !OwedBy(s.ingest, c, n))
      && (n in r.numbers || n in r.lost || OwedBy(s.live, c, n) || OwedBy(s.ingest, c, n))
  {
    RunKeeps(lastSeen, actions, c);
    var s := Run(Start(lastSeen), actions);
    assert Places(s.On(c), s.live, s.ingest, c, n) == 1;
  }

  /** A change is lost on a channel exactly by its job ending while it owes the report. */
  lemma LostExactlyByEnding(s: State, a: Action, c: Channel)
    ensures Step(s, a).On(c).lost != s.On(c).lost <==>
      (a == LivenessEnds && Waiting(s.live, c)) || (a == IngestEnds && Waiting(s.ingest, c))
    ensures a == LivenessEnds && Waiting(s.live, c) ==> Step(s, a).On(c).lost == s.On(c).lost + [s.live.k]
    ensures a == IngestEnds && Waiting(s.ingest, c) ==> Step(s, a).On(c).lost == s.On(c).lost + [s.ingest.k]
  {
  }

  /** The alerts of a channel strictly alternate exactly when none was ever sent out of turn. As long as no
    * job has ended owing a report, that is exactly when none was sent while the other job owed an earlier
    * one, and the alerts are then the changes in order. */
  lemma AlertsAlternateExactlyWhen(lastSeen: Option<int>, actions: seq<Action>, c: Channel)
    ensures var s := Run(Start(lastSeen), actions); var r := s.On(c);
      && (Alternates(r.log) <==> !r.displaced)
      && (r.lost == [] ==> (Alternates(r.log) <==> !r.overtook))
      && (r.lost == [] && !r.overtook ==> r.log <= s.moves)
  {
    RunKeeps(lastSeen, actions, c);
  }

  /** A job about to report has the wrong alert for the next place in an alternating log if and only if the
    * reports lost so far, one if the other job owes one too, and one if the other job has made a later change,
    * are odd in number. */
  lemma OutOfTurnExactlyWhen(lastSeen: Option<int>, actions: seq<Action>, c: Channel)
    ensures var s := Run(Start(lastSeen), actions); var r := s.On(c);
      && (Waiting(s.live, c) ==> (KindOf(|r.log|) != Offline <==> OutOfTurn(r, s.live.k, s.ingest, c, |s.moves|)))
      && (Waiting(s.ingest, c) ==> (KindOf(|r.log|) != Online <==> OutOfTurn(r, s.ingest.k, s.live, c, |s.moves|)))
  {
    RunKeeps(lastSeen, actions, c);
    var s := Run(Start(lastSeen), actions);
    if Waiting(s.live, c) {
      InTurn(s.moves, s.On(c), s.live.k, s.ingest, c);
    }
    if Waiting(s.ingest, c) {
      InTurn(s.moves, s.On(c), s.ingest.k, s.live, c);
    }
  }

  lemma RunThen(s: State, actions: seq<Action>, a: Action)
    ensures Run(s, actions + [a]) == Step(Run(s, actions), a)
  {
    assert (actions + [a])[..|actions|] == actions;
  }

  /** No job UPDATEs the flag while the other still owes the channel a report, and none ends owing one. */
  ghost predicate Prompt(lastSeen: Option<int>, actions: seq<Action>, c: Channel) {
    forall n {:trigger actions[n]} :: 0 <= n < |actions| ==> PromptAt(Run(Start(lastSeen), actions[..n]), actions[n], c)
  }

  predicate PromptAt(s: State, a: Action, c: Channel) {
    && (a.LivenessUpdates? || a.IngestEnds? ==> !Waiting(s.ingest, c))
    && (a.IngestClears? || a.LivenessEnds? ==> !Waiting(s.live, c))
  }

  predicate Tidy(s: State, c: Channel) {
    !s.On(c).overtook && s.On(c).lost == [] && !(Waiting(s.live, c) && Waiting(s.ingest, c))
  }

  lemma PromptStep(s: State, a: Action, c: Channel)
    requires Tidy(s, c) && PromptAt(s, a, c)
    ensures Tidy(Step(s, a), c)
  {
  }

  lemma {:induction false} PromptStaysTidy(lastSeen: Option<int>, actions: seq<Action>, c: Channel)
    requires Prompt(lastSeen, actions, c)
    ensures Tidy(Run(Start(lastSeen), actions), c)
    decreases |actions|
  {
    if actions != [] {
      var n := |actions| - 1;
      var before := actions[..n];
      forall k | 0 <= k < n ensures before[k] == actions[k] && before[..k] == actions[..k] {
      }
      PromptStaysTidy(lastSeen, before, c);
      assert actions[n] == actions[n];
      PromptStep(Run(Start(lastSeen), before), actions[n], c);
    }
  }

  /** When each change is reported before the other job makes the next and no job ends before it has reported,
    * the reports alternate wherever the SELECTs fall. */
  lemma PromptReportsAlternate(lastSeen: Option<int>, actions: seq<Action>, c: Channel)
    requires Prompt(lastSeen, actions, c)
    ensures var s := Run(Start(lastSeen), actions); Alternates(s.On(c).log) && s.On(c).log <= s.moves
  {
    PromptStaysTidy(lastSeen, actions, c);
    AlertsAlternateExactlyWhen(lastSeen, actions, c);
  }

  // ---------- A device that came back in time ----------

  /** An ingest writes the device's last_seen. */
  predicate Stamps(s: State, a: Action) {
    a.IngestTouches? && s.ingest.Selected?
  }

  lemma {:induction false} ClockRuns(s: State, actions: seq<Action>, j: nat)
    requires j <= |actions|
    ensures Run(s, actions[..j]).now <= Run(s, actions).now
    decreases |actions|
  {
    var n := |actions| - 1;
    if j > n {
      assert actions[..j] == actions;
    } else {
      ClockRuns(s, actions[..n], j);
      assert actions[..n][..j] == actions[..j];
    }
  }

  /** The j-th step stamps the device, and from it to the end of the run the check stands between its SELECT and its
    * UPDATE. */
  ghost predicate StampAt(s: State, actions: seq<Action>, j: nat)
    requires j < |actions|
  {
    && Stamps(Run(s, actions[..j]), actions[j])
    && forall i :: j <= i <= |actions| ==> Run(s, actions[..i]).live == Run(s, actions).live
  }

  /** Some step stamps it so, at `since` or later. */
  ghost predicate Stamped(s: State, actions: seq<Action>, since: int) {
    exists j :: 0 <= j < |actions| && StampAt(s, actions, j) && Run(s, actions[..j]).now >= since
  }

  lemma StampBefore(s: State, actions: seq<Action>, before: seq<Action>, j: nat)
    requires actions != [] && before == actions[..|actions| - 1] && j < |before|
    requires Run(s, actions).live == Run(s, before).live
    ensures StampAt(s, actions, j) <==> StampAt(s, before, j)
    ensures Run(s, actions[..j]) == Run(s, before[..j])
  {
    assert actions[..|actions|] == actions;
    forall i | 0 <= i <= |before| ensures actions[..i] == before[..i] {
    }
    if StampAt(s, before, j) {
      forall i | j <= i <= |actions| ensures Run(s, actions[..i]).live == Run(s, actions).live {
        if i <= |before| {
          assert Run(s, before[..i]).live == Run(s, before).live;
        }
      }
    }
    if StampAt(s, actions, j) {
      forall i | j <= i <= |before| ensures Run(s, before[..i]).live == Run(s, before).live {
        assert Run(s, actions[..i]).live == Run(s, actions).live;
      }
    }
  }

  lemma StalledStays(s: State, a: Action)
    requires Step(s, a).live.Stalled?
    ensures s.live.Stalled? ==> Step(s, a).live == s.live
    ensures s.live.Stalled? ==> Step(s, a).lastSeen == if Stamps(s, a) then Some(s.now) else s.lastSeen
    ensures !s.live.Stalled? ==> !SeenFrom(Step(s, a).lastSeen, Step(s, a).live.cutoff)
  {
  }

  /** While the check stands there, the device counts as seen since some time after the cutoff exactly when an ingest
    * has stamped it since the SELECT, at that time or later. */
  lemma {:induction false} SeenExactlyWhenStamped(s: State, actions: seq<Action>, since: int)
    requires !s.live.Stalled? && Run(s, actions).live.Stalled? && Run(s, actions).live.cutoff <= since
    ensures SeenFrom(Run(s, actions).lastSeen, since) <==> Stamped(s, actions, since)
    decreases |actions|
  {
    var n := |actions| - 1;
    var before := actions[..n];
    StalledStays(Run(s, before), actions[n]);
    if Run(s, before).live.Stalled? {
      SeenExactlyWhenStamped(s, before, since);
      if Stamps(Run(s, before), actions[n]) {
        StampNow(s, actions, before, since);
      } else {
        StampedBefore(s, actions, before, since);
      }
    } else {
      forall j | 0 <= j < |actions| ensures !StampAt(s, actions, j) {
        assert Run(s, actions[..n]).live != Run(s, actions).live;
      }
    }
  }

  /** The last step is a stamp. */
  lemma StampNow(s: State, actions: seq<Action>, before: seq<Action>, since: int)
    requires actions != [] && before == actions[..|actions| - 1] && Run(s, actions).live == Run(s, before).live
    requires Stamps(Run(s, before), actions[|before|])
    ensures Stamped(s, actions, since) <==> Run(s, before).now >= since
  {
    assert actions[..|actions|] == actions;
    if Run(s, before).now >= since {
      assert StampAt(s, actions, |before|);
    }
    forall j | 0 <= j < |actions| && Run(s, actions[..j]).now >= since ensures Run(s, before).now >= since {
      ClockRuns(s, before, j);
      assert before[..j] == actions[..j];
    }
  }

  /** The last step is none. */
  lemma StampedBefore(s: State, actions: seq<Action>, before: seq<Action>, since: int)
    requires actions != [] && before == actions[..|actions| - 1] && Run(s, actions).live == Run(s, before).live
    requires !Stamps(Run(s, before), actions[|before|])
    ensures Stamped(s, actions, since) <==> Stamped(s, before, since)
  {
    if Stamped(s, actions, since) {
      var j :| 0 <= j < |actions| && StampAt(s, actions, j) && Run(s, actions[..j]).now >= since;
      if j < |before| {
        StampBefore(s, actions, before, j);
      }
    }
    if Stamped(s, before, since) {
      var j :| 0 <= j < |before| && StampAt(s, before, j) && Run(s, before[..j]).now >= since;
      StampBefore(s, actions, before, j);
    }
  }

  lemma {:induction false} CutoffIsPast(s: State, actions: seq<Action>)
    requires !s.live.Stalled?
    ensures var t := Run(s, actions); t.live.Stalled? ==> t.live.cutoff <= t.now
    decreases |actions|
  {
    if actions != [] {
      CutoffIsPast(s, actions[..|actions| - 1]);
    }
  }

  /** When the check's UPDATE flags the device, the device is no longer stale for the SELECT that chose it if and only
    * if an ingest stamped it between that SELECT and that UPDATE; and for any later time, it has been seen since
    * then if and only if one stamped it then or later. */
  lemma FlagsSeenDeviceExactlyWhen(lastSeen: Option<int>, actions: seq<Action>, since: int)
    requires Run(Start(lastSeen), actions).live.Stalled? && Run(Start(lastSeen), actions).live.cutoff <= since
    ensures var s0 := Start(lastSeen); var s := Run(s0, actions); var t := Step(s, LivenessUpdates);
      && t.moves == s.moves + [Offline] && t.flag && !s.flag
      && (SeenFrom(t.lastSeen, s.live.cutoff) <==> exists j :: 0 <= j < |actions| && StampAt(s0, actions, j))
      && (SeenFrom(t.lastSeen, since) <==> Stamped(s0, actions, since))
  {
    RunKeeps(lastSeen, actions, Page);
    var s0 := Start(lastSeen);
    var cutoff := Run(s0, actions).live.cutoff;
    SeenExactlyWhenStamped(s0, actions, since);
    SeenExactlyWhenStamped(s0, actions, cutoff);
    forall j | 0 <= j < |actions| && StampAt(s0, actions, j) ensures Run(s0, actions[..j]).now >= cutoff {
      CutoffIsPast(s0, actions[..j]);
      assert Run(s0, actions[..j]).live == Run(s0, actions).live;
    }
  }

  // ---------- Runs ----------

  /** The liveness job flags the device. */
  lemma Flagged() returns (actions: seq<Action>)
    ensures var s := Run(Start(None), actions);
      s == Start(None).(flag := true, live := Unsent(0), moves := [Offline])
  {
    var s := Start(None);
    actions := [];
    RunThen(s, actions, LivenessSelects(60));
    actions := actions + [LivenessSelects(60)];
    RunThen(s, actions, LivenessUpdates);
    actions := actions + [LivenessUpdates];
  }

  /** From any state with the device flagged and no ingest under way, an ingest clears the flag. */
  lemma Cleared(s: State, actions: seq<Action>) returns (more: seq<Action>)
    requires Run(s, actions).flag && Run(s, actions).ingest.Idle?
    ensures var t := Run(s, actions);
      Run(s, more) ==
        t.(lastSeen := Some(t.now), flag := false, ingest := Unsent(|t.moves|), moves := t.moves + [Online])
  {
    RunThen(s, actions, IngestSelects);
    more := actions + [IngestSelects];
    RunThen(s, more, IngestTouches);
    more := more + [IngestTouches];
    RunThen(s, more, IngestClears);
    more := more + [IngestClears];
  }

  /** Telemetry resumes between the liveness job's UPDATE and its notification: "back online" is pushed before
    * "offline". */
  lemma BackOnlineBeforeOffline() returns (actions: seq<Action>)
    ensures Run(Start(None), actions).pages.log == [Online, Offline]
  {
    var s := Start(None);
    actions := Flagged();
    actions := Cleared(s, actions);
    RunThen(s, actions, IngestPages);
    actions := actions + [IngestPages];
    RunThen(s, actions, LivenessPages);
    actions := actions + [LivenessPages];
  }

  /** The liveness job ends between its UPDATE and its notification: "offline" is never pushed, and "back
    * online" is all there is, though nothing overtook anything. */
  lemma OutageNeverReported() returns (actions: seq<Action>)
    ensures var s := Run(Start(None), actions);
      s.pages.log == [Online] && !s.pages.overtook && s.pages.lost == [0] && !Alternates(s.pages.log)
  {
    var s := Start(None);
    actions := Flagged();
    RunThen(s, actions, LivenessEnds);
    actions := actions + [LivenessEnds];
    actions := Cleared(s, actions);
    RunThen(s, actions, IngestPages);
    actions := actions + [IngestPages];
  }

  /** Losing a report is not enough: when the whole outage goes unreported, the alerts still alternate. */
  lemma WholeOutageLost() returns (actions: seq<Action>)
    ensures var s := Run(Start(None), actions);
      s.pages.lost == [0, 1] && s.pages.log == [Offline] && Alternates(s.pages.log)
  {
    var s := Start(None);
    actions := Flagged();
    RunThen(s, actions, LivenessEnds);
    actions := actions + [LivenessEnds];
    actions := Cleared(s, actions);
    RunThen(s, actions, IngestEnds);
    actions := actions + [IngestEnds];
    RunThen(s, actions, Tick(100));
    actions := actions + [Tick(100)];
    RunThen(s, actions, LivenessSelects(60));
    actions := actions + [LivenessSelects(60)];
    RunThen(s, actions, LivenessUpdates);
    actions := actions + [LivenessUpdates];
    RunThen(s, actions, LivenessPages);
    actions := actions + [LivenessPages];
  }

  /** Telemetry resumes between the liveness job's SELECT and its UPDATE: "offline" is pushed, and the flag set, for a
    * device seen at this very moment. */
  lemma OfflineThoughSeen() returns (actions: seq<Action>)
    ensures var s := Run(Start(None), actions);
      s.pages.log == [Offline] && s.flag && s.lastSeen == Some(s.now) && s.ingest.Idle?
  {
    var s := Start(None);
    actions := [];
    RunThen(s, actions, LivenessSelects(60));
    actions := actions + [LivenessSelects(60)];
    RunThen(s, actions, IngestSelects);
    actions := actions + [IngestSelects];
    RunThen(s, actions, IngestTouches);
    actions := actions + [IngestTouches];
    RunThen(s, actions, LivenessUpdates);
    actions := actions + [LivenessUpdates];
    RunThen(s, actions, LivenessPages);
    actions := actions + [LivenessPages];
  }
}
