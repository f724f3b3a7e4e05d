/** The uptime percentage (app/main.py, _uptime_pct): gap analysis of the telemetry rows against the instants a
  * reading vouches for. Times are microseconds. */
module Uptime {

  /** A reading vouches for this long after it. */
  const EXPECTED_POLL_INTERVAL: nat := 60 * 1_000_000

  // ---------- The query ----------

  predicate IsSorted(s: seq<int>) {
    forall i, j :: 0 <= i < j < |s| ==> s[i] <= s[j]
  }

  function Insert(s: seq<int>, t: int): seq<int> {
    if s != [] && t < s[|s| - 1] then Insert(s[..|s| - 1], t) + [s[|s| - 1]] else s + [t]
  }

  /** ORDER BY time */
  function Sort(s: seq<int>): seq<int> {
    if s == [] then [] else Insert(Sort(s[..|s| - 1]), s[|s| - 1])
  }

  /** WHERE time > window_start */
  function After(rows: seq<int>, start: int): seq<int> {
    if rows == [] then []
    else
      var n := |rows| - 1;
      After(rows[..n], start) + if rows[n] > start then [rows[n]] else []
  }

  /** The readings, with the window's ends added as virtual readings. */
  function WithBounds(rows: seq<int>, start: int, end: int): seq<int> {
    [start] + After(rows, start) + [end]
  }

  /** SUM(GREATEST(gap - expected, 0)) over adjacent times. */
  function GapSum(times: seq<int>): int {
    if |times| <= 1 then 0
    else
      var n := |times| - 1;
      var excess := times[n] - times[n - 1] - EXPECTED_POLL_INTERVAL;
      GapSum(times[..n]) + if excess > 0 then excess else 0
  }

  function Downtime(rows: seq<int>, start: int, end: int): int {
    GapSum(Sort(WithBounds(rows, start, end)))
  }

  /** 100 * (1 - downtime / window), before it is clamped. */
  function RawPct(rows: seq<int>, start: int, end: int): real
    requires start < end
  {
    100.0 * (1.0 - Downtime(rows, start, end) as real / (end - start) as real)
  }

  function UptimePct(rows: seq<int>, start: int, end: int): real
    requires start < end
  {
    var raw := RawPct(rows, start, end);
    var capped := if raw < 100.0 then raw else 100.0;
    if capped > 0.0 then capped else 0.0
  }

  // ---------- Sorting ----------

  lemma MultisetSnoc(s: seq<int>, rest: seq<int>, t: int)
    requires s == rest + [t]
    ensures multiset(s) == multiset(rest) + multiset{t}
  {
  }

  lemma {:induction false} InsertPermutes(s: seq<int>, t: int)
    ensures multiset(Insert(s, t)) == multiset(s) + multiset{t}
    decreases |s|
  {
    if s != [] && t < s[|s| - 1] {
      var n := |s| - 1;
      InsertPermutes(s[..n], t);
      MultisetSnoc(s, s[..n], s[n]);
      MultisetSnoc(Insert(s, t), Insert(s[..n], t), s[n]);
    } else {
      MultisetSnoc(Insert(s, t), s, t);
    }
  }

  lemma InsertMember(s: seq<int>, t: int, x: int)
    ensures x in Insert(s, t) <==> x in s || x == t
  {
    InsertPermutes(s, t);
    assert x in Insert(s, t) <==> x in multiset(Insert(s, t));
  }

  lemma {:induction false} InsertSorts(s: seq<int>, t: int)
    requires IsSorted(s)
    ensures IsSorted(Insert(s, t))
    decreases |s|
  {
    if s != [] && t < s[|s| - 1] {
      var n := |s| - 1;
      InsertSorts(s[..n], t);
      var rest := Insert(s[..n], t);
      forall i | 0 <= i < |rest| ensures rest[i] <= s[n] {
        InsertMember(s[..n], t, rest[i]);
      }
    }
  }

  lemma {:induction false} SortSorts(s: seq<int>)
    ensures IsSorted(Sort(s)) && multiset(Sort(s)) == multiset(s)
    decreases |s|
  {
    if s != [] {
      var n := |s| - 1;
      SortSorts(s[..n]);
      InsertSorts(Sort(s[..n]), s[n]);
      InsertPermutes(Sort(s[..n]), s[n]);
      assert s == s[..n] + [s[n]];
    }
  }

  lemma {:induction false} AfterSelects(rows: seq<int>, start: int, t: int)
    ensures t in After(rows, start) <==> t in rows && t > start
    decreases |rows|
  {
    if rows != [] {
      var n := |rows| - 1;
      AfterSelects(rows[..n], start, t);
      assert rows == rows[..n] + [rows[n]];
    }
  }

  // ---------- What the sum means ----------

  /** A time in `times` is less than the expected interval before t, or at it. */
  predicate Vouched(times: seq<int>, t: int) {
    exists r :: r in times && r <= t < r + EXPECTED_POLL_INTERVAL
  }

  /** The vouched-for instants from `start` up to `end`. */
  function Covered(times: seq<int>, start: int, end: int): set<int> {
    set t | start <= t < end && Vouched(times, t)
  }

  predicate Within(start: int, t: int, end: int) {
    start <= t < end
  }

  function Interval(start: int, end: int): set<int> {
    set t | start <= t < end && Within(start, t, end)
  }

  lemma {:induction false} IntervalSize(start: int, end: int)
    requires start <= end
    ensures |Interval(start, end)| == end - start
    decreases end - start
  {
    if start < end {
      IntervalSize(start, end - 1);
      assert Interval(start, end) == Interval(start, end - 1) + {end - 1};
    } else {
      assert Interval(start, end) == {};
    }
  }

  /** Up to where a time vouches for the gap that follows it. */
  function VouchedUntil(from: int, next: int): int {
    if next - from < EXPECTED_POLL_INTERVAL then next else from + EXPECTED_POLL_INTERVAL
  }

  /** Between two adjacent times only the earlier one's own stretch is vouched for. */
  lemma CoveredStep(times: seq<int>, until: int)
    requires IsSorted(times) && |times| > 1
    requires until == VouchedUntil(times[|times| - 2], times[|times| - 1])
    ensures var n := |times| - 1;
      Covered(times, times[0], times[n]) == Covered(times[..n], times[0], times[n - 1]) + Interval(times[n - 1], until)
  {
    var n := |times| - 1;
    forall t | times[0] <= t < times[n]
      ensures Vouched(times, t) <==>
        if t < times[n - 1] then Vouched(times[..n], t) else t < until
    {
      if Vouched(times, t) {
        var r :| r in times && r <= t < r + EXPECTED_POLL_INTERVAL;
        assert r in times[..n] && r <= times[n - 1];
      }
      if t < times[n - 1] && Vouched(times[..n], t) {
        var r :| r in times[..n] && r <= t < r + EXPECTED_POLL_INTERVAL;
        assert r in times;
      }
      if times[n - 1] <= t < until {
        assert times[n - 1] in times;
      }
    }
  }

  lemma DisjointSize(a: set<int>, b: set<int>)
    requires a !! b
    ensures |a + b| == |a| + |b|
  {
  }

  lemma CoveredApart(times: seq<int>, start: int, mid: int, until: int)
    ensures Covered(times, start, mid) !! Interval(mid, until)
  {
  }

  /** Of a gap, the part that is vouched for is counted. */
  lemma GapSize(times: seq<int>, until: int)
    requires IsSorted(times) && |times| > 1
    requires until == VouchedUntil(times[|times| - 2], times[|times| - 1])
    ensures var n := |times| - 1;
      |Covered(times, times[0], times[n])| == |Covered(times[..n], times[0], times[n - 1])| + (until - times[n - 1])
  {
    var n := |times| - 1;
    CoveredStep(times, until);
    IntervalSize(times[n - 1], until);
    CoveredApart(times[..n], times[0], times[n - 1], until);
    DisjointSize(Covered(times[..n], times[0], times[n - 1]), Interval(times[n - 1], until));
  }

  /** Over sorted times, the excess of the gaps is the number of instants nothing vouches for. */
  lemma {:induction false} GapSumCounts(times: seq<int>)
    requires IsSorted(times) && times != []
    ensures GapSum(times) == (times[|times| - 1] - times[0]) - |Covered(times, times[0], times[|times| - 1])|
    decreases |times|
  {
    if |times| == 1 {
      assert Covered(times, times[0], times[0]) == {};
    } else {
      GapSumCounts(times[..|times| - 1]);
      GapSize(times, VouchedUntil(times[|times| - 2], times[|times| - 1]));
    }
  }

  /** The rows are no later than now. */
  predicate NotAhead(rows: seq<int>, end: int) {
    forall t :: t in rows ==> t <= end
  }

  /** The window's start, or a reading after it. */
  predicate InWindow(rows: seq<int>, start: int, t: int) {
    t == start || (t in rows && t > start)
  }

  lemma SortedWindow(rows: seq<int>, start: int, end: int)
    requires start < end && NotAhead(rows, end)
    ensures var s := Sort(WithBounds(rows, start, end));
      IsSorted(s) && s != [] && s[0] == start && s[|s| - 1] == end &&
      forall t :: t in s <==> t == end || InWindow(rows, start, t)
  {
    var w := WithBounds(rows, start, end);
    var s := Sort(w);
    SortSorts(w);
    forall t ensures t in s <==> t == end || InWindow(rows, start, t) {
      AfterSelects(rows, start, t);
      SameMembers(s, w, t);
    }
    assert InWindow(rows, start, start);
    SortedEnds(s, start, end);
  }

  lemma SameMembers(s: seq<int>, w: seq<int>, t: int)
    requires multiset(s) == multiset(w)
    ensures t in s <==> t in w
  {
    assert t in s <==> t in multiset(s);
    assert t in w <==> t in multiset(w);
  }

  lemma SortedEnds(s: seq<int>, low: int, high: int)
    requires IsSorted(s) && low in s && high in s && forall t :: t in s ==> low <= t <= high
    ensures s != [] && s[0] == low && s[|s| - 1] == high
  {
    assert s[0] in s && s[|s| - 1] in s;
  }

  /** An instant of the window counts as up if a reading, or the window's start, lies at it or less than a minute
    * before it. */
  predicate IsUp(rows: seq<int>, start: int, t: int) {
    exists r :: InWindow(rows, start, r) && r <= t < r + 60_000_000
  }

  function UpInstants(rows: seq<int>, start: int, end: int): set<int> {
    set t | start <= t < end && IsUp(rows, start, t)
  }

  lemma VouchedIsUp(s: seq<int>, rows: seq<int>, start: int, end: int, t: int)
    requires t < end && forall r :: r in s <==> r == end || InWindow(rows, start, r)
    ensures Vouched(s, t) <==> IsUp(rows, start, t)
  {
    if Vouched(s, t) {
      var r :| r in s && r <= t < r + EXPECTED_POLL_INTERVAL;
      assert InWindow(rows, start, r);
    }
    if IsUp(rows, start, t) {
      var r :| InWindow(rows, start, r) && r <= t < r + EXPECTED_POLL_INTERVAL;
      assert r in s;
    }
  }

  /** The downtime is the rest of the window: the instants that are not up. */
  lemma DowntimeIsTheRest(rows: seq<int>, start: int, end: int)
    requires start < end && NotAhead(rows, end)
    ensures Downtime(rows, start, end) == (end - start) - |UpInstants(rows, start, end)|
  {
    SortedWindow(rows, start, end);
    var s := Sort(WithBounds(rows, start, end));
    GapSumCounts(s);
    forall t | start <= t < end ensures Vouched(s, t) <==> IsUp(rows, start, t) {
      VouchedIsUp(s, rows, start, end, t);
    }
    assert Covered(s, start, end) == UpInstants(rows, start, end);
  }

  /** min(gap, expected) over adjacent times. */
  function VouchedSum(times: seq<int>): int {
    if |times| <= 1 then 0
    else
      var n := |times| - 1;
      var gap := times[n] - times[n - 1];
      VouchedSum(times[..n]) + if gap < EXPECTED_POLL_INTERVAL then gap else EXPECTED_POLL_INTERVAL
  }

  /** The query's sum is the window less the sum of the gaps, each cut at the expected interval. */
  lemma {:induction false} GapSumComplements(times: seq<int>)
    requires times != []
    ensures GapSum(times) == (times[|times| - 1] - times[0]) - VouchedSum(times)
    decreases |times|
  {
    if |times| > 1 {
      GapSumComplements(times[..|times| - 1]);
    }
  }

  lemma UpIsPart(rows: seq<int>, start: int, end: int)
    requires start < end
    ensures |UpInstants(rows, start, end)| <= end - start
    ensures |UpInstants(rows, start, end)| == end - start <==> forall t :: start <= t < end ==> IsUp(rows, start, t)
  {
    IntervalSize(start, end);
    var up, all := UpInstants(rows, start, end), Interval(start, end);
    SubsetSize(up, all);
    if up == all {
      forall t | start <= t < end ensures IsUp(rows, start, t) {
        assert t in all;
      }
    } else {
      var t :| t in all && t !in up;
      assert start <= t < end && !IsUp(rows, start, t);
    }
  }

  lemma SubsetSize(a: set<int>, b: set<int>)
    requires a <= b
    ensures |a| <= |b| && (|a| == |b| <==> a == b)
  {
    assert b == a + (b - a);
  }

  function Share(up: int, window: int): real
    requires window > 0
  {
    100.0 * up as real / window as real
  }

  lemma Fraction(up: int, down: int, window: int)
    requires window > 0 && down == window - up
    ensures 100.0 * (1.0 - down as real / window as real) == Share(up, window)
  {
    var u, d, w := up as real, down as real, window as real;
    assert d == w - u;
    assert (d / w) * w == d && (u / w) * w == u;
    Cancel(1.0 - d / w, u / w, w);
    Cancel(100.0 * (u / w), 100.0 * u / w, w);
  }

  lemma Cancel(x: real, y: real, w: real)
    requires w != 0.0 && x * w == y * w
    ensures x == y
  {
    assert (x - y) * w == 0.0;
  }

  lemma ShareOrder(a: nat, b: nat, window: int)
    requires window > 0
    ensures a <= b <==> Share(a, window) <= Share(b, window)
  {
    var w := window as real;
    var inverse := 1.0 / w;
    assert inverse > 0.0;
    assert Share(a, window) == 100.0 * a as real * inverse && Share(b, window) == 100.0 * b as real * inverse;
    assert Share(b, window) - Share(a, window) == 100.0 * (b as real - a as real) * inverse;
  }

  lemma ShareEnds(window: int)
    requires window > 0
    ensures Share(0, window) == 0.0 && Share(window, window) == 100.0
  {
  }

  lemma ShareBounds(up: nat, window: int)
    requires window > 0 && up <= window
    ensures 0.0 <= Share(up, window) <= 100.0
    ensures Share(up, window) == 100.0 <==> up == window
  {
    ShareEnds(window);
    ShareOrder(0, up, window);
    ShareOrder(up, window, window);
    ShareOrder(window, up, window);
  }

  /** The percentage is the share of the window that is up. The clamp never changes it. */
  lemma UptimeIsShareOfWindow(rows: seq<int>, start: int, end: int)
    requires start < end && NotAhead(rows, end)
    ensures UptimePct(rows, start, end) == RawPct(rows, start, end)
    ensures UptimePct(rows, start, end) == Share(|UpInstants(rows, start, end)|, end - start)
    ensures 0.0 <= UptimePct(rows, start, end) <= 100.0
  {
    DowntimeIsTheRest(rows, start, end);
    UpIsPart(rows, start, end);
    var up, window := |UpInstants(rows, start, end)|, end - start;
    Fraction(up, Downtime(rows, start, end), window);
    ShareBounds(up, window);
  }

  /** It is 100 exactly when at every instant of the window a reading, or the window's start, lies less
    * than the expected interval back. */
  lemma FullUptimeExactlyWhen(rows: seq<int>, start: int, end: int)
    requires start < end && NotAhead(rows, end)
    ensures UptimePct(rows, start, end) == 100.0 <==> forall t :: start <= t < end ==> IsUp(rows, start, t)
  {
    UptimeIsShareOfWindow(rows, start, end);
    UpIsPart(rows, start, end);
    ShareBounds(|UpInstants(rows, start, end)|, end - start);
  }

  /** More readings never lower the percentage. */
  lemma MoreReadingsNeverLower(rows: seq<int>, more: seq<int>, start: int, end: int)
    requires start < end && NotAhead(rows, end) && NotAhead(more, end)
    requires forall t :: t in rows ==> t in more
    ensures UptimePct(rows, start, end) <= UptimePct(more, start, end)
  {
    UptimeIsShareOfWindow(rows, start, end);
    UptimeIsShareOfWindow(more, start, end);
    forall t | t in UpInstants(rows, start, end) ensures t in UpInstants(more, start, end) {
      var r :| InWindow(rows, start, r) && r <= t < r + EXPECTED_POLL_INTERVAL;
      assert InWindow(more, start, r);
    }
    var a, b := UpInstants(rows, start, end), UpInstants(more, start, end);
    SubsetSize(a, b);
    ShareOrder(|a|, |b|, end - start);
  }

  /** Neither the order of the rows nor duplicates matter. */
  lemma OnlyTheTimesMatter(rows: seq<int>, others: seq<int>, start: int, end: int)
    requires start < end && NotAhead(rows, end)
    requires forall t :: t in rows <==> t in others
    ensures UptimePct(rows, start, end) == UptimePct(others, start, end)
  {
    MoreReadingsNeverLower(rows, others, start, end);
    MoreReadingsNeverLower(others, rows, start, end);
  }
}
