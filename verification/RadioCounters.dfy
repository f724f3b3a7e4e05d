/** Rates from cumulative radio counters (app/main.py, _upsert_radio_counters), and how many bytes the reported
  * throughput accounts for. Times are microseconds. */
module RadioCounters {
  import opened Wrappers

  /** A device_radio_counters row. */
  datatype Counters = Counters(retries: Option<int>, packets: Option<int>, tx: Option<int>, rx: Option<int>, at: int)

  /** The agent reports the two counters of a pair together or not at all. */
  predicate Paired(c: Counters) {
    (c.retries.Some? <==> c.packets.Some?) && (c.tx.Some? <==> c.rx.Some?)
  }

  function Seconds(micros: int): real {
    micros as real / 1000000.0
  }

  function RetriesRate(prev: Option<Counters>, c: Counters): Option<real>
    requires Paired(c) && (prev.Some? ==> Paired(prev.value))
  {
    if prev.None? || c.retries.None? || prev.value.packets.None? then None
    else
      var dRetries := c.retries.value - prev.value.retries.value;
      var dPackets := c.packets.value - prev.value.packets.value;
      Some(if dRetries >= 0 && dPackets > 0 then dRetries as real / dPackets as real else 0.0)
  }

  function Throughput(prev: Option<Counters>, c: Counters): Option<real>
    requires Paired(c) && (prev.Some? ==> Paired(prev.value))
  {
    if prev.None? || c.tx.None? || prev.value.tx.None? then None
    else
      var dBytes := (c.tx.value + c.rx.value) - (prev.value.tx.value + prev.value.rx.value);
      var secs := Seconds(c.at - prev.value.at);
      Some(if dBytes >= 0 && secs > 0.0 then (dBytes * 8) as real / (secs * 1000000.0) else 0.0)
  }

  /** The row of one device's radio. */
  class RadioRow {
    var stored: Option<Counters>

    constructor ()
      ensures stored == None
    {
      stored := None;
    }

    /** The rates come from what was stored, which this poll's counters then replace, null or not. */
    method Upsert(c: Counters) returns (retriesRate: Option<real>, throughputMbps: Option<real>)
      requires Paired(c) && (stored.Some? ==> Paired(stored.value))
      modifies this
      ensures stored == Some(c)
      ensures retriesRate == RetriesRate(old(stored), c) && throughputMbps == Throughput(old(stored), c)
    {
      var prev := stored;
      stored := Some(c);
      retriesRate := None;
      if prev.Some? && c.retries.Some? && c.packets.Some? && prev.value.packets.Some? {
        var dRetries := c.retries.value - prev.value.retries.value;
        var dPackets := c.packets.value - prev.value.packets.value;
        retriesRate := Some(if dRetries >= 0 && dPackets > 0 then dRetries as real / dPackets as real else 0.0);
      }
      throughputMbps := None;
      if prev.Some? && c.tx.Some? && c.rx.Some? && prev.value.tx.Some? {
        var dBytes := (c.tx.value + c.rx.value) - (prev.value.tx.value + prev.value.rx.value);
        var dSecs := Seconds(c.at - prev.value.at);
        throughputMbps := Some(if dBytes >= 0 && dSecs > 0.0 then (dBytes * 8) as real / (dSecs * 1000000.0) else 0.0);
      }
    }
  }

  // ---------- The device's side ----------

  /** The four cumulative counters, or an amount of each. */
  datatype Amounts = Amounts(tx: nat, rx: nat, retries: nat, packets: nat)
  {
    function Bytes(): nat {
      tx + rx
    }

    function Plus(other: Amounts): Amounts {
      Amounts(tx + other.tx, rx + other.rx, retries + other.retries, packets + other.packets)
    }

    predicate Covers(other: Amounts) {
      other.tx <= tx && other.rx <= rx && other.retries <= retries && other.packets <= packets
    }

    function Minus(other: Amounts): Amounts
      requires Covers(other)
    {
      Amounts(tx - other.tx, rx - other.rx, retries - other.retries, packets - other.packets)
    }
  }

  const NONE := Amounts(0, 0, 0, 0)

  /** Traffic goes through, or counters lose some of their value: a reboot, a driver reload, a wrap. */
  datatype Act = Move(moved: Amounts) | Drop(dropped: Amounts)

  function Moved(acts: seq<Act>): Amounts {
    if acts == [] then NONE
    else
      var before := Moved(acts[..|acts| - 1]);
      match acts[|acts| - 1] case Move(a) => before.Plus(a) case Drop(_) => before
  }

  function Dropped(acts: seq<Act>): Amounts {
    if acts == [] then NONE
    else
      var before := Dropped(acts[..|acts| - 1]);
      match acts[|acts| - 1] case Move(_) => before case Drop(a) => before.Plus(a)
  }

  /** The counters after some acts; None when a drop asks for more than there is. */
  function CountersAfter(c: Amounts, acts: seq<Act>): Option<Amounts> {
    if acts == [] then Some(c)
    else
      match CountersAfter(c, acts[..|acts| - 1])
      case None => None
      case Some(before) =>
        match acts[|acts| - 1]
        case Move(a) => Some(before.Plus(a))
        case Drop(a) => if before.Covers(a) then Some(before.Minus(a)) else None
  }

  /** What the counters gained is what was moved less what was dropped. */
  lemma {:induction false} CountersBalance(c: Amounts, acts: seq<Act>)
    requires CountersAfter(c, acts).Some?
    ensures CountersAfter(c, acts).value.Plus(Dropped(acts)) == c.Plus(Moved(acts))
    decreases |acts|
  {
    if acts != [] {
      CountersBalance(c, acts[..|acts| - 1]);
    }
  }

  // ---------- Runs of polls ----------

  /** What happened since the previous poll, the time of this one, and which counters it could read. */
  datatype Poll = Poll(acts: seq<Act>, at: int, bytesRead: bool, framesRead: bool)

  function CountersAt(polls: seq<Poll>): Option<Amounts> {
    if polls == [] then Some(NONE)
    else
      match CountersAt(polls[..|polls| - 1])
      case None => None
      case Some(before) => CountersAfter(before, polls[|polls| - 1].acts)
  }

  /** No drop takes a counter below zero. */
  predicate PossibleRun(polls: seq<Poll>) {
    CountersAt(polls).Some?
  }

  lemma PossiblePrefix(polls: seq<Poll>)
    requires polls != [] && PossibleRun(polls)
    ensures PossibleRun(polls[..|polls| - 1])
  {
  }

  /** What a poll that finds these counters reports. */
  function Seen(c: Amounts, p: Poll): (r: Counters)
    ensures Paired(r)
  {
    Counters(if p.framesRead then Some(c.retries) else None, if p.framesRead then Some(c.packets) else None,
             if p.bytesRead then Some(c.tx) else None, if p.bytesRead then Some(c.rx) else None, p.at)
  }

  /** The row the last poll leaves. */
  function Stored(polls: seq<Poll>): (r: Option<Counters>)
    requires PossibleRun(polls)
    ensures r.Some? ==> Paired(r.value)
  {
    if polls == [] then None else Some(Seen(CountersAt(polls).value, polls[|polls| - 1]))
  }

  /** The throughput and the retries rate the last poll reports. */
  function ReportedThroughput(polls: seq<Poll>): Option<real>
    requires polls != [] && PossibleRun(polls)
  {
    PossiblePrefix(polls);
    Throughput(Stored(polls[..|polls| - 1]), Stored(polls).value)
  }

  function ReportedRetries(polls: seq<Poll>): Option<real>
    requires polls != [] && PossibleRun(polls)
  {
    PossiblePrefix(polls);
    RetriesRate(Stored(polls[..|polls| - 1]), Stored(polls).value)
  }

  /** The two last polls of a run, and the counters they found. */
  lemma LastInterval(polls: seq<Poll>) returns (c0: Amounts, c1: Amounts)
    requires |polls| > 1 && PossibleRun(polls)
    ensures var n := |polls| - 1; var moved, dropped := Moved(polls[n].acts), Dropped(polls[n].acts);
      && c1.Plus(dropped) == c0.Plus(moved)
      && PossibleRun(polls[..n]) && CountersAt(polls[..n]) == Some(c0) && CountersAt(polls) == Some(c1)
      && ReportedThroughput(polls) == Throughput(Some(Seen(c0, polls[n - 1])), Seen(c1, polls[n]))
      && ReportedRetries(polls) == RetriesRate(Some(Seen(c0, polls[n - 1])), Seen(c1, polls[n]))
  {
    var n := |polls| - 1;
    PossiblePrefix(polls);
    c0, c1 := CountersAt(polls[..n]).value, CountersAt(polls).value;
    CountersBalance(c0, polls[n].acts);
  }

  // ---------- Throughput ----------

  /** The bytes a throughput stands for, in megabits a second (bits a microsecond) over the microseconds since the
    * previous poll. */
  function Bytes(throughput: Option<real>, micros: int): real {
    if throughput.None? then 0.0 else throughput.value * micros as real / 8.0
  }

  function IntervalBytes(polls: seq<Poll>): real
    requires |polls| > 1 && PossibleRun(polls)
  {
    var n := |polls| - 1;
    Bytes(ReportedThroughput(polls), polls[n].at - polls[n - 1].at)
  }

  function Accounted(polls: seq<Poll>): real
    requires PossibleRun(polls)
  {
    if |polls| <= 1 then 0.0
    else
      PossiblePrefix(polls);
      Accounted(polls[..|polls| - 1]) + IntervalBytes(polls)
  }

  /** The bytes moved since the first poll. */
  function TrulyMoved(polls: seq<Poll>): nat {
    if |polls| <= 1 then 0 else TrulyMoved(polls[..|polls| - 1]) + Moved(polls[|polls| - 1].acts).Bytes()
  }

  lemma BytesOfRate(bytes: int, micros: int)
    requires micros > 0
    ensures Bytes(Some((bytes * 8) as real / (Seconds(micros) * 1000000.0)), micros) == bytes as real
  {
    var scaled := Seconds(micros) * 1000000.0;
    assert scaled == micros as real > 0.0;
    assert (bytes * 8) as real / scaled * scaled == (bytes * 8) as real;
    assert (bytes * 8) as real == bytes as real * 8.0;
  }

  lemma SecondsOrder(a: int)
    ensures Seconds(a) > 0.0 <==> a > 0
  {
  }

  lemma QuotientNotNegative(x: real, y: real)
    requires x >= 0.0 && y > 0.0
    ensures x / y >= 0.0
  {
  }

  /** A rate between two readable polls stands for the growth of the counters, if it is not negative. */
  lemma RateAccounts(prev: Counters, c: Counters, bytes: int)
    requires Paired(prev) && Paired(c) && prev.tx.Some? && c.tx.Some?
    requires bytes == (c.tx.value + c.rx.value) - (prev.tx.value + prev.rx.value)
    ensures Bytes(Throughput(Some(prev), c), c.at - prev.at) ==
      if bytes >= 0 && prev.at < c.at then bytes as real else 0.0
  {
    var secs := Seconds(c.at - prev.at);
    SecondsOrder(c.at - prev.at);
    if bytes >= 0 && secs > 0.0 {
      BytesOfRate(bytes, c.at - prev.at);
    }
  }

  /** What the last interval accounts for: the growth of the counters if it is seen and not negative,
    * otherwise nothing. */
  lemma IntervalAccounts(polls: seq<Poll>)
    requires |polls| > 1 && PossibleRun(polls)
    ensures var n := |polls| - 1;
      var growth := Moved(polls[n].acts).Bytes() - Dropped(polls[n].acts).Bytes();
      IntervalBytes(polls) ==
        if polls[n - 1].bytesRead && polls[n].bytesRead && growth >= 0 && polls[n - 1].at < polls[n].at
        then growth as real else 0.0
  {
    var n := |polls| - 1;
    var c0, c1 := LastInterval(polls);
    if polls[n - 1].bytesRead && polls[n].bytesRead {
      RateAccounts(Seen(c0, polls[n - 1]), Seen(c1, polls[n]), c1.Bytes() - c0.Bytes());
    }
  }

  /** Whatever the counters, the nulls and the clock do, the reported throughput never accounts for
    * more bytes than were moved. */
  lemma {:induction false} NeverMoreThanMoved(polls: seq<Poll>)
    requires PossibleRun(polls)
    ensures Accounted(polls) <= TrulyMoved(polls) as real
    decreases |polls|
  {
    if |polls| > 1 {
      PossiblePrefix(polls);
      NeverMoreThanMoved(polls[..|polls| - 1]);
      IntervalAccounts(polls);
    }
  }

  /** The k-th interval shows all there was, in the given sense. */
  predicate ShowsAt(polls: seq<Poll>, k: nat, shows: (Poll, Poll) -> bool)
    requires 0 < k < |polls|
  {
    shows(polls[k - 1], polls[k])
  }

  predicate AllShown(polls: seq<Poll>, shows: (Poll, Poll) -> bool) {
    forall k :: 0 < k < |polls| ==> ShowsAt(polls, k, shows)
  }

  lemma ShownSnoc(polls: seq<Poll>, shows: (Poll, Poll) -> bool)
    requires |polls| > 1
    ensures var n := |polls| - 1;
      AllShown(polls, shows) <==> AllShown(polls[..n], shows) && shows(polls[n - 1], polls[n])
  {
    var n := |polls| - 1;
    ShownPrefix(polls, polls[..n], shows);
    assert ShowsAt(polls, n, shows) <==> shows(polls[n - 1], polls[n]);
  }

  lemma ShownPrefix(polls: seq<Poll>, before: seq<Poll>, shows: (Poll, Poll) -> bool)
    requires before <= polls
    ensures AllShown(before, shows) <==> forall k :: 0 < k < |before| ==> ShowsAt(polls, k, shows)
  {
    forall k | 0 < k < |before| ensures ShowsAt(before, k, shows) <==> ShowsAt(polls, k, shows) {
    }
  }

  /** An interval accounts for all it moved: it moved nothing, or both ends are read, the clock advances and
    * no counter dropped. */
  predicate ShowsBytes(before: Poll, p: Poll) {
    Moved(p.acts).Bytes() == 0 ||
    (before.bytesRead && p.bytesRead && before.at < p.at && Dropped(p.acts).Bytes() == 0)
  }

  lemma LastBytes(polls: seq<Poll>)
    requires |polls| > 1 && PossibleRun(polls)
    ensures var n := |polls| - 1; var moved := Moved(polls[n].acts).Bytes() as real;
      IntervalBytes(polls) <= moved && (IntervalBytes(polls) == moved <==> ShowsBytes(polls[n - 1], polls[n]))
  {
    IntervalAccounts(polls);
  }

  /** It accounts for exactly the bytes moved if and only if every interval is seen. */
  lemma {:induction false} AllMovedExactlyWhen(polls: seq<Poll>)
    requires PossibleRun(polls)
    ensures Accounted(polls) == TrulyMoved(polls) as real <==> AllShown(polls, ShowsBytes)
    decreases |polls|
  {
    if |polls| > 1 {
      var n := |polls| - 1;
      PossiblePrefix(polls);
      AllMovedExactlyWhen(polls[..n]);
      NeverMoreThanMoved(polls[..n]);
      LastBytes(polls);
      BothEqual(Accounted(polls[..n]), TrulyMoved(polls[..n]) as real, IntervalBytes(polls),
                Moved(polls[n].acts).Bytes() as real);
      ShownSnoc(polls, ShowsBytes);
    }
  }

  /** Neither summand makes up for the other. */
  lemma BothEqual(a: real, x: real, b: real, y: real)
    requires a <= x && b <= y
    ensures a + b == x + y <==> a == x && b == y
  {
  }

  /** The clock advances and no byte counter drops. */
  predicate Advances(polls: seq<Poll>, k: nat)
    requires 0 < k < |polls|
  {
    polls[k - 1].at < polls[k].at && Dropped(polls[k].acts).Bytes() == 0
  }

  lemma LastGrowth(polls: seq<Poll>)
    requires |polls| > 1 && PossibleRun(polls) && Dropped(polls[|polls| - 1].acts).Bytes() == 0
    ensures var n := |polls| - 1;
      PossibleRun(polls[..n]) &&
      CountersAt(polls).value.Bytes() == CountersAt(polls[..n]).value.Bytes() + Moved(polls[n].acts).Bytes()
  {
    var _, _ := LastInterval(polls);
  }

  lemma OnePoll(polls: seq<Poll>)
    requires |polls| == 1
    ensures CountersAt(polls) == CountersAfter(NONE, polls[0].acts)
  {
    assert polls[..0] == [];
  }

  lemma AdvancesPrefix(polls: seq<Poll>, before: seq<Poll>)
    requires before <= polls && forall k :: 0 < k < |polls| ==> Advances(polls, k)
    ensures forall k :: 0 < k < |before| ==> Advances(before, k)
  {
    forall k | 0 < k < |before| ensures Advances(before, k) {
      assert Advances(polls, k);
    }
  }

  lemma {:induction false} MovedIsGrowth(polls: seq<Poll>)
    requires PossibleRun(polls) && polls != [] && forall k :: 0 < k < |polls| ==> Advances(polls, k)
    ensures CountersAfter(NONE, polls[0].acts).Some?
    ensures TrulyMoved(polls) == CountersAt(polls).value.Bytes() - CountersAfter(NONE, polls[0].acts).value.Bytes()
    decreases |polls|
  {
    if |polls| == 1 {
      OnePoll(polls);
    } else {
      assert Advances(polls, |polls| - 1);
      LastGrowth(polls);
      AdvancesPrefix(polls, polls[..|polls| - 1]);
      MovedIsGrowth(polls[..|polls| - 1]);
    }
  }

  lemma AllBytesShown(polls: seq<Poll>)
    requires forall k :: 0 <= k < |polls| ==> polls[k].bytesRead
    requires forall k :: 0 < k < |polls| ==> Advances(polls, k)
    ensures AllShown(polls, ShowsBytes)
  {
    forall k | 0 < k < |polls| ensures ShowsAt(polls, k, ShowsBytes) {
      assert Advances(polls, k);
    }
  }

  /** With every poll readable, the clock advancing and no drop, the bytes accounted for are the last
    * counters minus those of the first poll. */
  lemma LastMinusFirst(polls: seq<Poll>)
    requires PossibleRun(polls) && polls != []
    requires forall k :: 0 <= k < |polls| ==> polls[k].bytesRead
    requires forall k :: 0 < k < |polls| ==> Advances(polls, k)
    ensures CountersAfter(NONE, polls[0].acts).Some?
    ensures Accounted(polls) ==
      (CountersAt(polls).value.Bytes() - CountersAfter(NONE, polls[0].acts).value.Bytes()) as real
  {
    AllBytesShown(polls);
    AllMovedExactlyWhen(polls);
    MovedIsGrowth(polls);
  }

  lemma RateOf(prev: Counters, c: Counters, bytes: int)
    requires Paired(prev) && Paired(c) && prev.tx.Some? && c.tx.Some?
    requires bytes == (c.tx.value + c.rx.value) - (prev.tx.value + prev.rx.value)
    ensures Throughput(Some(prev), c).Some? && Throughput(Some(prev), c).value >= 0.0
    ensures bytes < 0 ==> Throughput(Some(prev), c).value == 0.0
  {
    var secs := Seconds(c.at - prev.at);
    if bytes >= 0 && secs > 0.0 {
      QuotientNotNegative((bytes * 8) as real, secs * 1000000.0);
    }
  }

  /** No throughput is negative; there is one exactly when both this poll and the one before could read the
    * byte counters. A drop below the stored total reads as zero, not as "no rate". */
  lemma ThroughputExactlyWhenRead(polls: seq<Poll>)
    requires polls != [] && PossibleRun(polls)
    ensures var n := |polls| - 1; var rate := ReportedThroughput(polls);
      && (rate.Some? <==> n > 0 && polls[n - 1].bytesRead && polls[n].bytesRead)
      && (rate.Some? ==> rate.value >= 0.0)
      && (rate.Some? && Dropped(polls[n].acts).Bytes() > Moved(polls[n].acts).Bytes() ==> rate.value == 0.0)
  {
    var n := |polls| - 1;
    if n > 0 {
      var c0, c1 := LastInterval(polls);
      if polls[n - 1].bytesRead && polls[n].bytesRead {
        RateOf(Seen(c0, polls[n - 1]), Seen(c1, polls[n]), c1.Bytes() - c0.Bytes());
      }
    }
  }

  // ---------- Retries ----------

  /** The packets by which the counter grew over the last interval. */
  function PacketGrowth(polls: seq<Poll>): int
    requires polls != []
  {
    Moved(polls[|polls| - 1].acts).packets - Dropped(polls[|polls| - 1].acts).packets
  }

  /** The retries a rate stands for, over the packets since the previous poll. */
  function RetriesFor(rate: Option<real>, packets: int): real {
    if rate.None? then 0.0 else rate.value * packets as real
  }

  function IntervalRetries(polls: seq<Poll>): real
    requires |polls| > 1 && PossibleRun(polls)
  {
    RetriesFor(ReportedRetries(polls), PacketGrowth(polls))
  }

  function AccountedRetries(polls: seq<Poll>): real
    requires PossibleRun(polls)
  {
    if |polls| <= 1 then 0.0
    else
      PossiblePrefix(polls);
      AccountedRetries(polls[..|polls| - 1]) + IntervalRetries(polls)
  }

  function TrulyRetried(polls: seq<Poll>): nat {
    if |polls| <= 1 then 0 else TrulyRetried(polls[..|polls| - 1]) + Moved(polls[|polls| - 1].acts).retries
  }

  lemma QuotientTimes(x: real, y: real)
    requires y > 0.0
    ensures x / y * y == x
  {
  }

  /** Between two readable polls the rate is retries per packet of the growth; it is zero when the retries
    * went back or no packets were added. */
  lemma RetriesRateOf(prev: Counters, c: Counters, retries: int, packets: int)
    requires Paired(prev) && Paired(c) && prev.packets.Some? && c.packets.Some?
    requires retries == c.retries.value - prev.retries.value && packets == c.packets.value - prev.packets.value
    ensures var rate := RetriesRate(Some(prev), c);
      && rate.Some? && rate.value >= 0.0
      && (retries < 0 || packets <= 0 ==> rate.value == 0.0)
      && (retries >= 0 && packets > 0 ==> rate.value * packets as real == retries as real)
  {
    if retries >= 0 && packets > 0 {
      QuotientNotNegative(retries as real, packets as real);
      QuotientTimes(retries as real, packets as real);
    }
  }

  /** There is a retries rate exactly when both this poll and the one before could read the frame counters. It
    * is never negative, and zero, not "no rate", when the retries dropped or no packets were added. */
  lemma RetriesExactlyWhenRead(polls: seq<Poll>)
    requires polls != [] && PossibleRun(polls)
    ensures var n := |polls| - 1; var rate := ReportedRetries(polls);
      && (rate.Some? <==> n > 0 && polls[n - 1].framesRead && polls[n].framesRead)
      && (rate.Some? ==> rate.value >= 0.0)
      && (rate.Some? && Dropped(polls[n].acts).retries > Moved(polls[n].acts).retries ==> rate.value == 0.0)
      && (rate.Some? && PacketGrowth(polls) <= 0 ==> rate.value == 0.0)
  {
    var n := |polls| - 1;
    if n > 0 {
      var c0, c1 := LastInterval(polls);
      if polls[n - 1].framesRead && polls[n].framesRead {
        RetriesRateOf(Seen(c0, polls[n - 1]), Seen(c1, polls[n]), c1.retries - c0.retries, c1.packets - c0.packets);
      }
    }
  }

  lemma RateStandsFor(prev: Counters, c: Counters, retries: int, packets: int)
    requires Paired(prev) && Paired(c) && prev.packets.Some? && c.packets.Some?
    requires retries == c.retries.value - prev.retries.value && packets == c.packets.value - prev.packets.value
    ensures RetriesFor(RetriesRate(Some(prev), c), packets) ==
      if retries >= 0 && packets > 0 then retries as real else 0.0
  {
    RetriesRateOf(prev, c, retries, packets);
    if retries < 0 || packets <= 0 {
      ZeroTimes(RetriesRate(Some(prev), c).value, packets as real);
    }
  }

  lemma ZeroTimes(x: real, y: real)
    requires x == 0.0
    ensures x * y == 0.0
  {
  }

  /** What the last interval's rate stands for: the growth of the retries if it is seen, not negative, and
    * packets were added; otherwise nothing. */
  lemma IntervalRetriesAre(polls: seq<Poll>)
    requires |polls| > 1 && PossibleRun(polls)
    ensures var n := |polls| - 1;
      var growth := Moved(polls[n].acts).retries - Dropped(polls[n].acts).retries;
      IntervalRetries(polls) ==
        if polls[n - 1].framesRead && polls[n].framesRead && growth >= 0 && PacketGrowth(polls) > 0
        then growth as real else 0.0
  {
    var n := |polls| - 1;
    var c0, c1 := LastInterval(polls);
    if polls[n - 1].framesRead && polls[n].framesRead {
      RateStandsFor(Seen(c0, polls[n - 1]), Seen(c1, polls[n]), c1.retries - c0.retries, c1.packets - c0.packets);
    }
  }

  /** Over any run, the rates times the packets they are about never account for more retries than there were. */
  lemma {:induction false} NeverMoreThanRetried(polls: seq<Poll>)
    requires PossibleRun(polls)
    ensures AccountedRetries(polls) <= TrulyRetried(polls) as real
    decreases |polls|
  {
    if |polls| > 1 {
      PossiblePrefix(polls);
      NeverMoreThanRetried(polls[..|polls| - 1]);
      IntervalRetriesAre(polls);
    }
  }

  /** An interval accounts for all its retries: it had none, or both ends are read, the retries did not drop and
    * packets were added. */
  predicate ShowsRetries(before: Poll, p: Poll) {
    Moved(p.acts).retries == 0 ||
    (before.framesRead && p.framesRead && Dropped(p.acts).retries == 0 &&
     Moved(p.acts).packets > Dropped(p.acts).packets)
  }

  lemma LastRetries(polls: seq<Poll>)
    requires |polls| > 1 && PossibleRun(polls)
    ensures var n := |polls| - 1; var moved := Moved(polls[n].acts).retries as real;
      IntervalRetries(polls) <= moved && (IntervalRetries(polls) == moved <==> ShowsRetries(polls[n - 1], polls[n]))
  {
    IntervalRetriesAre(polls);
  }

  /** They account for exactly the retries there were if and only if every interval is seen. */
  lemma {:induction false} AllRetriedExactlyWhen(polls: seq<Poll>)
    requires PossibleRun(polls)
    ensures AccountedRetries(polls) == TrulyRetried(polls) as real <==> AllShown(polls, ShowsRetries)
    decreases |polls|
  {
    if |polls| > 1 {
      var n := |polls| - 1;
      PossiblePrefix(polls);
      AllRetriedExactlyWhen(polls[..n]);
      NeverMoreThanRetried(polls[..n]);
      LastRetries(polls);
      BothEqual(AccountedRetries(polls[..n]), TrulyRetried(polls[..n]) as real, IntervalRetries(polls),
                Moved(polls[n].acts).retries as real);
      ShownSnoc(polls, ShowsRetries);
    }
  }
}
