/** The optimizer's channel choices and window averages: the computing half of app/optimizer.py.
  * What it does to the commands table is in CommandProtocol. */
module Optimizer {
  import opened Wrappers
  import opened HalowChannelPlan

  // ---------- Picking a channel ----------

  /** The first candidate that has not failed before. */
  function FirstAllowed(candidates: seq<int>, failed: set<int>): (r: Option<int>)
    ensures r.None? <==> forall c :: c in candidates ==> c in failed
    ensures r.Some? ==> r.value in candidates && r.value !in failed
  {
    if candidates == [] then None
    else
      var c := candidates[0];
      assert c in candidates;
      if c !in failed then Some(c) else FirstAllowed(candidates[1..], failed)
  }

  lemma {:induction false} FirstAllowedIsFirst(candidates: seq<int>, failed: set<int>, k: nat)
    requires k < |candidates| && candidates[k] !in failed
    requires forall i :: 0 <= i < k ==> candidates[i] in failed
    ensures FirstAllowed(candidates, failed) == Some(candidates[k])
  {
    if k > 0 {
      FirstAllowedIsFirst(candidates[1..], failed, k - 1);
    }
  }

  /** The position of a channel in a list, or -1 when it is not there. */
  function IndexOf(valid: seq<int>, channel: int): (r: int)
    ensures -1 <= r < |valid|
    ensures r == -1 <==> channel !in valid
    ensures r >= 0 ==> valid[r] == channel
  {
    if channel !in valid then -1
    else if valid[0] == channel then 0
    else 1 + IndexOf(valid[1..], channel)
  }

  /** The list read round-robin, starting just after the current channel and ending at it
    * (or read from the start when the current channel is not in it). */
  function Rotation(valid: seq<int>, current: int): (r: seq<int>)
    ensures |r| == |valid|
  {
    var start := IndexOf(valid, current);
    valid[start + 1..] + valid[..start + 1]
  }

  function CyclePick(valid: seq<int>, current: int, failed: set<int>): Option<int> {
    FirstAllowed(Rotation(valid, current), failed)
  }

  function PickForBandwidth(bandwidthMhz: int, failed: set<int>): Option<int> {
    FirstAllowed(ValidChannels(bandwidthMhz), failed)
  }

  /** The channel met at step k + 1 of the walk is the one at position (start + step) mod length. */
  lemma RotationWalksModulo(valid: seq<int>, current: int, k: nat)
    requires k < |valid|
    ensures Rotation(valid, current)[k] == valid[(IndexOf(valid, current) + (k + 1)) % |valid|]
  {
    var p := IndexOf(valid, current) + (k + 1);
    var place := p % |valid|;
    ModuloBelowTwice(p, |valid|);
    RotationAt(valid, current, k, place);
  }

  lemma RotationAt(valid: seq<int>, current: int, k: nat, place: int)
    requires k < |valid|
    requires var p := IndexOf(valid, current) + (k + 1); place == if p < |valid| then p else p - |valid|
    ensures 0 <= place < |valid| && Rotation(valid, current)[k] == valid[place]
  {
  }

  lemma ModuloBelowTwice(p: nat, n: nat)
    requires p < 2 * n
    ensures p % n == if p < n then p else p - n
  {
    QuotientOrRest(p, n, p / n, p % n);
  }

  lemma QuotientOrRest(p: nat, n: nat, quotient: int, rest: nat)
    requires p < 2 * n && rest < n && p == n * quotient + rest
    ensures rest == if p < n then p else p - n
  {
    MulOutside(n, quotient);
  }

  lemma MulOutside(n: nat, q: int)
    ensures q < 0 ==> n * q + n <= 0
    ensures q > 1 ==> n * q >= 2 * n
  {
    if q < 0 {
      assert n * (-1 - q) >= 0;
    } else if q > 1 {
      assert n * (q - 2) >= 0;
    }
  }

  /** How many places after `current` the channel at position p stands. */
  function PlacesAfter(valid: seq<int>, current: int, p: nat): (k: nat)
    requires p < |valid|
    ensures k < |valid|
  {
    var start := IndexOf(valid, current);
    if p > start then p - start - 1 else p - start - 1 + |valid|
  }

  lemma RotationReaches(valid: seq<int>, current: int, p: nat)
    requires p < |valid|
    ensures Rotation(valid, current)[PlacesAfter(valid, current, p)] == valid[p]
  {
  }

  lemma RotationSameChannels(valid: seq<int>, current: int)
    ensures forall c :: c in Rotation(valid, current) <==> c in valid
  {
    var r := Rotation(valid, current);
    forall c | c in r ensures c in valid {
      var k :| 0 <= k < |r| && r[k] == c;
    }
    forall c | c in valid ensures c in r {
      var p :| 0 <= p < |valid| && valid[p] == c;
      RotationReaches(valid, current, p);
    }
  }

  /** The pick fails exactly when every channel has failed; otherwise it is a channel that has not
    * failed, and every channel standing nearer on the way round from the current one has. */
  lemma CyclePickIsNearest(valid: seq<int>, current: int, failed: set<int>)
    ensures CyclePick(valid, current, failed).None? <==> forall c :: c in valid ==> c in failed
    ensures CyclePick(valid, current, failed).Some? ==> exists p ::
      && 0 <= p < |valid| && CyclePick(valid, current, failed) == Some(valid[p]) && valid[p] !in failed
      && forall q :: 0 <= q < |valid| && PlacesAfter(valid, current, q) < PlacesAfter(valid, current, p) ==>
           valid[q] in failed
  {
    RotationSameChannels(valid, current);
    var r := Rotation(valid, current);
    var pick := CyclePick(valid, current, failed);
    if pick.Some? {
      var picked: int := pick.value;
      assert picked in r && picked in valid;
      var k := FirstAllowedPlace(r, failed);
      var p := if IndexOf(valid, current) + 1 + k < |valid| then IndexOf(valid, current) + 1 + k
               else IndexOf(valid, current) + 1 + k - |valid|;
      assert PlacesAfter(valid, current, p) == k;
      forall q | 0 <= q < |valid| && PlacesAfter(valid, current, q) < k ensures valid[q] in failed {
        RotationReaches(valid, current, q);
      }
    }
  }

  lemma {:induction false} FirstAllowedPlace(candidates: seq<int>, failed: set<int>) returns (k: nat)
    requires FirstAllowed(candidates, failed).Some?
    ensures k < |candidates| && FirstAllowed(candidates, failed) == Some(candidates[k])
    ensures forall i :: 0 <= i < k ==> candidates[i] in failed
  {
    if candidates[0] !in failed {
      k := 0;
    } else {
      k := FirstAllowedPlace(candidates[1..], failed);
      k := k + 1;
    }
  }

  /** The current channel is picked again exactly when it is the only one left that has not failed. */
  lemma CurrentOnlyAsLastResort(valid: seq<int>, current: int, failed: set<int>)
    requires current in valid && Distinct(valid)
    ensures CyclePick(valid, current, failed) == Some(current) <==>
            current !in failed && forall c :: c in valid && c != current ==> c in failed
  {
    CyclePickIsNearest(valid, current, failed);
    var p := IndexOf(valid, current);
    if CyclePick(valid, current, failed) == Some(current) {
      forall c | c in valid && c != current ensures c in failed {
        var q :| 0 <= q < |valid| && valid[q] == c;
        assert PlacesAfter(valid, current, q) < PlacesAfter(valid, current, p);
      }
    }
  }

  // ---------- Round-robin coverage ----------

  /** ps lists, in order, the positions of the channels that have not failed. */
  ghost predicate IsPositions(valid: seq<int>, failed: set<int>, ps: seq<int>) {
    && (forall i :: 0 <= i < |ps| ==> 0 <= ps[i] < |valid| && valid[ps[i]] !in failed)
    && (forall i, j :: 0 <= i < j < |ps| ==> ps[i] < ps[j])
    && (forall p {:trigger p in ps} :: 0 <= p < |valid| && valid[p] !in failed ==> p in ps)
  }

  function Positions(valid: seq<int>, failed: set<int>): (ps: seq<int>)
    ensures IsPositions(valid, failed, ps)
  {
    if valid == [] then []
    else
      var n := |valid| - 1;
      var ps := Positions(valid[..n], failed);
      assert forall i :: 0 <= i < n ==> valid[i] == valid[..n][i];
      if valid[n] in failed then ps
      else
        assert forall p :: p in ps + [n] <==> p in ps || p == n;
        ps + [n]
  }

  function Wrap(i: int, n: int): int {
    if i < n then i else i - n
  }

  /** Picking from the i-th non-failed channel yields the next non-failed one, cyclically. */
  lemma PickAdvances(valid: seq<int>, failed: set<int>, ps: seq<int>, i: nat)
    requires Distinct(valid) && IsPositions(valid, failed, ps) && i < |ps|
    ensures CyclePick(valid, valid[ps[i]], failed) == Some(valid[ps[Wrap(i + 1, |ps|)]])
  {
    var current := valid[ps[i]];
    var next := ps[Wrap(i + 1, |ps|)];
    var k := PlacesAfter(valid, current, next);
    assert IndexOf(valid, current) == ps[i];
    RotationReaches(valid, current, next);
    forall m | 0 <= m < k ensures Rotation(valid, current)[m] in failed {
      NoneBetween(valid, failed, ps, i, Wrap(ps[i] + 1 + m, |valid|));
    }
    FirstAllowedIsFirst(Rotation(valid, current), failed, k);
  }

  lemma NoneBetween(valid: seq<int>, failed: set<int>, ps: seq<int>, i: nat, q: nat)
    requires IsPositions(valid, failed, ps) && i < |ps| && q < |valid|
    requires i + 1 < |ps| ==> ps[i] < q < ps[i + 1]
    requires i + 1 == |ps| ==> q > ps[i] || q < ps[0]
    ensures valid[q] in failed
  {
    assert q !in ps;
  }

  /** Where m successive picks lead, each made from the channel picked before it. */
  function Visit(pick: int -> Option<int>, current: int, m: nat): Option<int> {
    if m == 0 then Some(current)
    else
      match Visit(pick, current, m - 1)
      case None => None
      case Some(c) => pick(c)
  }

  /** Each channel of the list is followed by the next one, the last by the first. */
  ghost predicate WalksRound(pick: int -> Option<int>, list: seq<int>) {
    forall i {:trigger pick(list[i])} :: 0 <= i < |list| ==> pick(list[i]) == Some(list[Wrap(i + 1, |list|)])
  }

  lemma {:induction false} VisitFollowsList(pick: int -> Option<int>, list: seq<int>, i: nat, m: nat)
    requires WalksRound(pick, list) && i < |list| && m <= |list|
    ensures Visit(pick, list[i], m) == Some(list[Wrap(i + m, |list|)])
  {
    if m > 0 {
      VisitFollowsList(pick, list, i, m - 1);
      assert Wrap(Wrap(i + (m - 1), |list|) + 1, |list|) == Wrap(i + m, |list|);
    }
  }

  /** The channels that have not failed, in the order of the list. */
  function Allowed(valid: seq<int>, failed: set<int>): (r: seq<int>) {
    var ps := Positions(valid, failed);
    seq(|ps|, i requires 0 <= i < |ps| => valid[ps[i]])
  }

  function Picker(valid: seq<int>, failed: set<int>): int -> Option<int> {
    c => CyclePick(valid, c, failed)
  }

  lemma AllowedAreTheOpen(valid: seq<int>, failed: set<int>)
    ensures forall c :: c in Allowed(valid, failed) <==> c in valid && c !in failed
  {
    var ps, a := Positions(valid, failed), Allowed(valid, failed);
    forall c | c in valid && c !in failed ensures c in a {
      var p :| 0 <= p < |valid| && valid[p] == c;
      assert p in ps;
      var i :| 0 <= i < |ps| && ps[i] == p;
      assert a[i] == c;
    }
    forall c | c in a ensures c in valid && c !in failed {
      var i :| 0 <= i < |a| && a[i] == c;
      assert c == valid[ps[i]];
    }
  }

  lemma AllowedAreDistinct(valid: seq<int>, failed: set<int>)
    requires Distinct(valid)
    ensures Distinct(Allowed(valid, failed))
  {
    var ps, a := Positions(valid, failed), Allowed(valid, failed);
    forall i, j | 0 <= i < j < |a| ensures a[i] != a[j] {
      assert ps[i] < ps[j];
    }
  }

  lemma AllowedWalksRound(valid: seq<int>, failed: set<int>)
    requires Distinct(valid)
    ensures WalksRound(Picker(valid, failed), Allowed(valid, failed))
  {
    var ps, a := Positions(valid, failed), Allowed(valid, failed);
    forall i | 0 <= i < |a| ensures Picker(valid, failed)(a[i]) == Some(a[Wrap(i + 1, |a|)]) {
      PickAdvances(valid, failed, ps, i);
    }
  }

  /** |list| successive picks from `current` meet every channel of the list, none of them twice. */
  ghost predicate VisitsEachOnce(pick: int -> Option<int>, list: seq<int>, current: int) {
    && (forall m :: 1 <= m <= |list| ==> exists c :: c in list && Visit(pick, current, m) == Some(c))
    && (forall c :: c in list ==> exists m :: 1 <= m <= |list| && Visit(pick, current, m) == Some(c))
    && (forall a, b :: 1 <= a < b <= |list| ==> Visit(pick, current, a) != Visit(pick, current, b))
  }

  /** While the failed set stays fixed, k picks over k non-failed channels visit each of them exactly once,
    * wherever they start: on a failed channel or one outside the list too. They end where they began
    * exactly when they began on a non-failed channel of the list, or when there is none to visit. */
  lemma RoundRobinCovers(valid: seq<int>, current: int, failed: set<int>)
    requires Distinct(valid)
    ensures forall c :: c in Allowed(valid, failed) <==> c in valid && c !in failed
    ensures VisitsEachOnce(Picker(valid, failed), Allowed(valid, failed), current)
    ensures Visit(Picker(valid, failed), current, |Allowed(valid, failed)|) == Some(current) <==>
      (current in valid && current !in failed) || Allowed(valid, failed) == []
  {
    var pick, list := Picker(valid, failed), Allowed(valid, failed);
    AllowedWalksRound(valid, failed);
    AllowedAreDistinct(valid, failed);
    AllowedAreTheOpen(valid, failed);
    if list != [] {
      assert list[0] in list;
      var i := FirstPick(valid, current, failed);
      WalkFrom(pick, list, current, i);
    }
  }

  /** The first pick is some channel of the list. */
  lemma FirstPick(valid: seq<int>, current: int, failed: set<int>) returns (i: nat)
    requires Allowed(valid, failed) != []
    ensures i < |Allowed(valid, failed)| && Picker(valid, failed)(current) == Some(Allowed(valid, failed)[i])
  {
    AllowedAreTheOpen(valid, failed);
    var some: int := Allowed(valid, failed)[0];
    assert some in Allowed(valid, failed);
    RotationSameChannels(valid, current);
    assert some in Rotation(valid, current) && some !in failed;
    var first := CyclePick(valid, current, failed);
    var c: int := first.value;
    assert c in Allowed(valid, failed);
    i :| 0 <= i < |Allowed(valid, failed)| && Allowed(valid, failed)[i] == c;
  }

  lemma WalkFrom(pick: int -> Option<int>, list: seq<int>, current: int, i: nat)
    requires WalksRound(pick, list) && Distinct(list) && i < |list| && pick(current) == Some(list[i])
    ensures VisitsEachOnce(pick, list, current)
    ensures Visit(pick, current, |list|) == Some(current) <==> current in list
  {
    WalkVisitsAll(pick, list, current, i);
    if current in list {
      FirstIsNext(pick, list, current, i);
    }
  }

  lemma {:induction false} VisitShifts(pick: int -> Option<int>, current: int, next: int, m: nat)
    requires pick(current) == Some(next)
    ensures Visit(pick, current, m + 1) == Visit(pick, next, m)
  {
    if m > 0 {
      VisitShifts(pick, current, next, m - 1);
    } else {
      assert Visit(pick, current, 0) == Some(current);
    }
  }

  /** From a channel whose pick is the i-th of the list, the m-th pick is the (i + m - 1)-th. */
  lemma VisitFrom(pick: int -> Option<int>, list: seq<int>, current: int, i: nat, m: nat)
    requires WalksRound(pick, list) && i < |list| && pick(current) == Some(list[i]) && 1 <= m <= |list|
    ensures Visit(pick, current, m) == Some(list[Wrap(i + (m - 1), |list|)])
  {
    VisitShifts(pick, current, list[i], m - 1);
    VisitFollowsList(pick, list, i, m - 1);
  }

  lemma WalkVisitsAll(pick: int -> Option<int>, list: seq<int>, current: int, i: nat)
    requires WalksRound(pick, list) && Distinct(list) && i < |list| && pick(current) == Some(list[i])
    ensures VisitsEachOnce(pick, list, current)
    ensures Visit(pick, current, |list|) == Some(list[Wrap(i + (|list| - 1), |list|)])
  {
    forall m | 1 <= m <= |list| ensures Visit(pick, current, m) == Some(list[Wrap(i + (m - 1), |list|)]) {
      VisitFrom(pick, list, current, i, m);
    }
    forall c | c in list ensures exists m :: 1 <= m <= |list| && Visit(pick, current, m) == Some(c) {
      var m := Reaches(list, i, c);
      assert Visit(pick, current, m) == Some(c);
    }
    forall m | 1 <= m <= |list| ensures exists c :: c in list && Visit(pick, current, m) == Some(c) {
      assert list[Wrap(i + (m - 1), |list|)] in list;
    }
  }

  /** The pick from a channel of the list is the one after it, so the one before the pick is that channel. */
  lemma FirstIsNext(pick: int -> Option<int>, list: seq<int>, current: int, i: nat)
    requires WalksRound(pick, list) && Distinct(list) && i < |list| && pick(current) == Some(list[i]) && current in list
    ensures list[Wrap(i + (|list| - 1), |list|)] == current
  {
    var j :| 0 <= j < |list| && list[j] == current;
    assert pick(list[j]) == Some(list[Wrap(j + 1, |list|)]);
  }

  /** The number of picks that lead to a given channel of the list, the first leading to the i-th. */
  lemma Reaches(list: seq<int>, i: nat, c: int) returns (m: nat)
    requires i < |list| && c in list
    ensures 1 <= m <= |list| && list[Wrap(i + (m - 1), |list|)] == c
  {
    var j :| 0 <= j < |list| && list[j] == c;
    m := if j >= i then j - i + 1 else j - i + |list| + 1;
  }

  // ---------- Window averages ----------

  const MIN_SAMPLES_FOR_AVERAGE: nat := 3

  function Given(value: Option<real>): seq<real> {
    match value
    case None => []
    case Some(v) => [v]
  }

  function Present(values: seq<Option<real>>): (r: seq<real>)
    ensures |r| <= |values|
  {
    if values == [] then [] else Given(values[0]) + Present(values[1..])
  }

  lemma {:induction false} PresentHas(values: seq<Option<real>>, v: real)
    ensures v in Present(values) <==> Some(v) in values
  {
    if values != [] {
      PresentHas(values[1..], v);
      assert values == [values[0]] + values[1..];
    }
  }

  function Sum(values: seq<real>): real {
    if values == [] then 0.0 else values[0] + Sum(values[1..])
  }

  function Mean(values: seq<real>): Option<real> {
    if |values| < MIN_SAMPLES_FOR_AVERAGE then None else Some(Sum(values) / |values| as real)
  }

  function AvgOverWindow(values: seq<Option<real>>): Option<real> {
    Mean(Present(values))
  }

  /** One telemetry row's throughput and negotiated rate. */
  datatype LinkSample = LinkSample(throughput: Option<real>, rate: Option<real>)

  function Utilization(samples: seq<LinkSample>): seq<Option<real>> {
    seq(|samples|, i requires 0 <= i < |samples| =>
      var s := samples[i];
      if s.throughput.None? || s.rate.None? || s.rate.value == 0.0 then None
      else Some(s.throughput.value / s.rate.value))
  }

  function ThroughputUtilization(samples: seq<LinkSample>): Option<real> {
    AvgOverWindow(Utilization(samples))
  }

  lemma {:induction false} SumBounds(values: seq<real>, lo: real, hi: real)
    requires forall v :: v in values ==> lo <= v <= hi
    ensures lo * |values| as real <= Sum(values) <= hi * |values| as real
  {
    if values != [] {
      assert forall v :: v in values[1..] ==> v in values;
      SumBounds(values[1..], lo, hi);
      assert values[0] in values;
      AddOne(lo, |values[1..]|, hi, values[0], Sum(values[1..]));
    }
  }

  lemma AddOne(lo: real, n: nat, hi: real, v: real, sum: real)
    requires lo <= v <= hi && lo * n as real <= sum <= hi * n as real
    ensures lo * (n + 1) as real <= v + sum <= hi * (n + 1) as real
  {
    OneMore(lo, n);
    OneMore(hi, n);
  }

  lemma OneMore(x: real, n: nat)
    ensures x * (n + 1) as real == x + x * n as real
  {
    assert (n + 1) as real == 1.0 + n as real;
  }

  /** A decision is taken on at least three readings, and a threshold crossed by the average is
    * crossed by some reading: nothing outside the range of the readings can trigger it. */
  lemma AverageIsWithinReadings(values: seq<Option<real>>, lo: real, hi: real)
    requires forall v :: Some(v) in values ==> lo <= v <= hi
    ensures AvgOverWindow(values).Some? <==> |Present(values)| >= 3
    ensures AvgOverWindow(values).Some? ==> lo <= AvgOverWindow(values).value <= hi
  {
    var p := Present(values);
    forall v | v in p ensures lo <= v <= hi {
      PresentHas(values, v);
    }
    SumBounds(p, lo, hi);
    if |p| >= 3 {
      MeanBounds(Sum(p), |p| as real, lo, hi);
    }
  }

  lemma MeanBounds(sum: real, n: real, lo: real, hi: real)
    requires n > 0.0 && lo * n <= sum <= hi * n
    ensures lo <= sum / n <= hi
  {
    assert sum / n * n == sum;
  }

  /** Adding a row without a reading changes no average. */
  lemma NullRowsDoNotCount(before: seq<Option<real>>, after: seq<Option<real>>)
    ensures AvgOverWindow(before + [None] + after) == AvgOverWindow(before + after)
  {
    calc {
      Present(before + [None] + after);
      { PresentSplits(before + [None], after); PresentSplits(before, [None]); }
      Present(before) + Present([None]) + Present(after);
      { assert Present([None]) == []; }
      Present(before) + Present(after);
      { PresentSplits(before, after); }
      Present(before + after);
    }
  }

  lemma {:induction false} PresentSplits(a: seq<Option<real>>, b: seq<Option<real>>)
    ensures Present(a + b) == Present(a) + Present(b)
  {
    if a == [] {
      assert a + b == b;
    } else {
      PresentSplits(a[1..], b);
      assert a == [a[0]] + a[1..];
      ConsSplits(a, a[0], a[1..], b);
    }
  }

  lemma ConsSplits(a: seq<Option<real>>, v: Option<real>, rest: seq<Option<real>>, b: seq<Option<real>>)
    requires a == [v] + rest && Present(rest + b) == Present(rest) + Present(b)
    ensures Present(a + b) == Present(a) + Present(b)
  {
    Reassociate([v], rest, b);
    PresentCons(v, rest);
    PresentCons(v, rest + b);
    Reassociate(Given(v), Present(rest), Present(b));
  }

  lemma Reassociate<T>(a: seq<T>, b: seq<T>, c: seq<T>)
    ensures a + b + c == a + (b + c)
  {
  }

  lemma PresentCons(v: Option<real>, rest: seq<Option<real>>)
    ensures Present([v] + rest) == Given(v) + Present(rest)
  {
    assert ([v] + rest)[1..] == rest;
  }

  function Readings(values: seq<Option<real>>): set<nat> {
    set i: nat | i < |values| && values[i].Some?
  }

  lemma {:induction false} PresentCounts(values: seq<Option<real>>)
    ensures |Present(values)| == |Readings(values)|
    decreases |values|
  {
    if values != [] {
      var n := |values| - 1;
      PresentCounts(values[..n]);
      PresentSplits(values[..n], [values[n]]);
      assert values == values[..n] + [values[n]];
      ReadingsSnoc(values, values[..n]);
    }
  }

  lemma ReadingsSnoc(values: seq<Option<real>>, before: seq<Option<real>>)
    requires before < values && |values| == |before| + 1
    ensures |Readings(values)| == |Readings(before)| + if values[|before|].Some? then 1 else 0
  {
    assert Readings(values) == Readings(before) + if values[|before|].Some? then {|before|} else {};
  }

  /** A row whose throughput and negotiated rate can be compared. */
  predicate Usable(s: LinkSample) {
    s.throughput.Some? && s.rate.Some? && s.rate.value != 0.0
  }

  /** There is a utilization exactly from three usable rows on, and it lies between any bounds of their
    * ratios. */
  lemma UtilizationExactlyWhen(samples: seq<LinkSample>, lo: real, hi: real)
    requires forall s :: s in samples && Usable(s) ==> lo <= s.throughput.value / s.rate.value <= hi
    ensures ThroughputUtilization(samples).Some? <==>
      |set i: nat | i < |samples| && Usable(samples[i])| >= MIN_SAMPLES_FOR_AVERAGE
    ensures ThroughputUtilization(samples).Some? ==> lo <= ThroughputUtilization(samples).value <= hi
  {
    var values := Utilization(samples);
    PresentCounts(values);
    assert Readings(values) == set i: nat | i < |samples| && Usable(samples[i]);
    forall v | Some(v) in values ensures lo <= v <= hi {
      var i :| 0 <= i < |values| && values[i] == Some(v);
      assert samples[i] in samples && Usable(samples[i]);
    }
    AverageIsWithinReadings(values, lo, hi);
  }

  // ---------- What fixes the average ----------

  lemma {:induction false} SumAppend(a: seq<real>, b: seq<real>)
    ensures Sum(a + b) == Sum(a) + Sum(b)
  {
    if a == [] {
      assert a + b == b;
    } else {
      assert (a + b)[1..] == a[1..] + b;
      SumAppend(a[1..], b);
    }
  }

  lemma PresentOne(v: Option<real>)
    ensures Present([v]) == if v.Some? then [v.value] else []
  {
    assert [v][1..] == [];
  }

  /** A list of readings, told at one of them. */
  lemma SumAround(values: seq<Option<real>>, before: seq<Option<real>>, x: real, after: seq<Option<real>>)
    requires values == before + [Some(x)] + after
    ensures Sum(Present(values)) == Sum(Present(before)) + x + Sum(Present(after))
    ensures |Present(values)| == |Present(before)| + 1 + |Present(after)|
  {
    PresentSplits(before + [Some(x)], after);
    PresentSplits(before, [Some(x)]);
    PresentOne(Some(x));
    SumAppend(Present(before) + [x], Present(after));
    SumAppend(Present(before), [x]);
    assert [x][1..] == [] && Sum([x]) == x;
  }

  lemma TotalRises(values: seq<Option<real>>, raised: seq<Option<real>>, before: seq<Option<real>>, x: real,
                   rise: real, after: seq<Option<real>>)
    requires values == before + [Some(x)] + after && raised == before + [Some(x + rise)] + after
    ensures Sum(Present(raised)) == Sum(Present(values)) + rise && |Present(raised)| == |Present(values)|
  {
    SumAround(values, before, x, after);
    SumAround(raised, before, x + rise, after);
  }

  lemma UpdateSplits<T>(s: seq<T>, i: nat, v: T)
    requires i < |s|
    ensures s == s[..i] + [s[i]] + s[i + 1..] && s[i := v] == s[..i] + [v] + s[i + 1..]
  {
  }

  lemma MeanRises(p: seq<real>, q: seq<real>, n: real, rise: real)
    requires |p| == |q| >= 3 && n == |p| as real && Sum(q) == Sum(p) + rise
    ensures Mean(p).Some? && Mean(q) == Some(Mean(p).value + rise / n)
  {
    RatioRises(Sum(p), rise, n);
  }

  lemma AverageRises(values: seq<Option<real>>, raised: seq<Option<real>>, before: seq<Option<real>>, x: real,
                     rise: real, after: seq<Option<real>>)
    requires values == before + [Some(x)] + after && raised == before + [Some(x + rise)] + after
    requires |Present(values)| >= 3
    ensures AvgOverWindow(values).Some?
    ensures AvgOverWindow(raised) == Some(AvgOverWindow(values).value + rise / |Present(values)| as real)
  {
    TotalRises(values, raised, before, x, rise, after);
    MeanRises(Present(values), Present(raised), |Present(values)| as real, rise);
  }

  /** Raising one of n readings raises the average by an n-th of that. */
  lemma AverageFollowsEachReading(values: seq<Option<real>>, i: nat, rise: real)
    requires i < |values| && values[i].Some? && |Readings(values)| >= 3
    ensures AvgOverWindow(values).Some?
    ensures AvgOverWindow(values[i := Some(values[i].value + rise)]) ==
            Some(AvgOverWindow(values).value + rise / |Readings(values)| as real)
  {
    var x := values[i].value;
    PresentCounts(values);
    UpdateSplits(values, i, Some(x + rise));
    AverageRises(values, values[i := Some(x + rise)], values[..i], x, rise, values[i + 1..]);
  }

  lemma {:induction false} SumOfEqual(values: seq<real>, x: real)
    requires forall v :: v in values ==> v == x
    ensures Sum(values) == |values| as real * x
  {
    if values != [] {
      assert values[0] in values && forall v :: v in values[1..] ==> v in values;
      SumOfEqual(values[1..], x);
    }
  }

  /** Equal readings average to themselves; with the lemma above that fixes every average. From less than three
    * readings there is none. */
  lemma EqualReadingsAverage(values: seq<Option<real>>, x: real)
    requires forall v :: Some(v) in values ==> v == x
    ensures AvgOverWindow(values) == if |Readings(values)| >= 3 then Some(x) else None
  {
    PresentCounts(values);
    forall v | v in Present(values) ensures v == x {
      PresentHas(values, v);
    }
    SumOfEqual(Present(values), x);
    if |Readings(values)| >= 3 {
      MeanOfEqual(Present(values), |Present(values)| as real, x);
    }
  }

  lemma MeanOfEqual(p: seq<real>, n: real, x: real)
    requires |p| >= 3 && n == |p| as real && Sum(p) == n * x
    ensures Mean(p) == Some(x)
  {
    assert n * x / n == x;
  }

  function UsableRows(samples: seq<LinkSample>): set<nat> {
    set i: nat | i < |samples| && Usable(samples[i])
  }

  lemma UsableAreReadings(samples: seq<LinkSample>)
    ensures Readings(Utilization(samples)) == UsableRows(samples)
  {
  }

  /** Raising the throughput of one of n usable rows raises the utilization by an n-th of that over its rate. */
  lemma UtilizationFollowsEachRow(samples: seq<LinkSample>, i: nat, rise: real)
    requires i < |samples| && Usable(samples[i]) && |UsableRows(samples)| >= 3
    ensures var s := samples[i];
      && ThroughputUtilization(samples).Some?
      && ThroughputUtilization(samples[i := s.(throughput := Some(s.throughput.value + rise))]) ==
           Some(ThroughputUtilization(samples).value + rise / s.rate.value / |UsableRows(samples)| as real)
  {
    UsableAreReadings(samples);
    RowRises(samples, i, rise, rise / samples[i].rate.value);
    AverageFollowsEachReading(Utilization(samples), i, rise / samples[i].rate.value);
  }

  lemma RowRises(samples: seq<LinkSample>, i: nat, rise: real, share: real)
    requires i < |samples| && Usable(samples[i]) && share == rise / samples[i].rate.value
    ensures var s := samples[i];
      Utilization(samples[i := s.(throughput := Some(s.throughput.value + rise))]) ==
        Utilization(samples)[i := Some(Utilization(samples)[i].value + share)]
  {
    var s := samples[i];
    var raised := samples[i := s.(throughput := Some(s.throughput.value + rise))];
    var after := Utilization(samples)[i := Some(Utilization(samples)[i].value + share)];
    RatioRises(s.throughput.value, rise, s.rate.value);
    forall k | 0 <= k < |samples| ensures Utilization(raised)[k] == after[k] {
    }
  }

  lemma RatioRises(t: real, rise: real, r: real)
    requires r != 0.0
    ensures (t + rise) / r == t / r + rise / r
  {
  }

  /** Equal ratios of throughput to rate average to themselves. */
  lemma EqualRatiosAverage(samples: seq<LinkSample>, x: real)
    requires forall s :: s in samples && Usable(s) ==> s.throughput.value / s.rate.value == x
    ensures ThroughputUtilization(samples) == if |UsableRows(samples)| >= 3 then Some(x) else None
  {
    UsableAreReadings(samples);
    var values := Utilization(samples);
    forall v | Some(v) in values ensures v == x {
      var i :| 0 <= i < |values| && values[i] == Some(v);
      assert samples[i] in samples && Usable(samples[i]);
    }
    EqualReadingsAverage(values, x);
  }
}
