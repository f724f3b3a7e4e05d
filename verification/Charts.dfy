/** How many points a chart can have (app/main.py, _bucket_seconds and the bucketed queries). Times are seconds
  * since the origin that buckets are aligned to. */
module Charts {

  const TARGET_CHART_POINTS: int := 600

  /** max(30, int(hours * 3600 / 600)) */
  function BucketSeconds(hours: real): int {
    var width := (hours * 3600.0 / TARGET_CHART_POINTS as real).Floor;
    if width > 30 then width else 30
  }

  /** time_bucket(): the number of the aligned bucket a time falls in. */
  function Bucket(t: real, width: int): int
    requires width > 0
  {
    (t / width as real).Floor
  }

  /** Some time in the window falls in the bucket. */
  ghost predicate Touches(now: real, hours: real, bucket: int) {
    exists t: real :: now - hours * 3600.0 < t <= now && Bucket(t, BucketSeconds(hours)) == bucket
  }

  /** Where the k-th bucket starts. */
  function Edge(k: int, width: int): real {
    k as real * width as real
  }

  lemma EdgeOrder(j: int, k: int, width: int)
    requires width > 0 && j <= k
    ensures Edge(j, width) <= Edge(k, width)
    ensures j < k ==> Edge(j, width) + width as real <= Edge(k, width)
  {
    var w := width as real;
    assert Edge(k, width) - Edge(j, width) == (k - j) as real * w;
    if j < k {
      assert (k - j) as real * w >= 1.0 * w;
    }
  }

  lemma EdgeAfter(k: int, n: int, width: int)
    ensures Edge(k + n, width) == Edge(k, width) + n as real * width as real
  {
  }

  lemma MulMonotone(a: real, b: real, w: real)
    requires w > 0.0
    ensures a <= b ==> a * w <= b * w
    ensures a < b ==> a * w < b * w
  {
    assert (b - a) * w == b * w - a * w;
    if a < b {
      assert (b - a) * w > 0.0;
    }
  }

  lemma BucketBounds(t: real, width: int)
    requires width > 0
    ensures Edge(Bucket(t, width), width) <= t < Edge(Bucket(t, width) + 1, width)
  {
    var w, k := width as real, Bucket(t, width);
    var q := t / w;
    assert q * w == t;
    MulMonotone(k as real, q, w);
    var next := (k + 1) as real;
    assert q < next;
    MulMonotone(q, next, w);
    assert t < next * w;
  }

  lemma BucketIs(t: real, width: int, k: int)
    requires width > 0 && Edge(k, width) <= t < Edge(k + 1, width)
    ensures Bucket(t, width) == k
  {
    var b := Bucket(t, width);
    BucketBounds(t, width);
    if b < k {
      EdgeOrder(b + 1, k, width);
    } else if b > k {
      EdgeOrder(k + 1, b, width);
    }
  }

  function FirstBucket(now: real, hours: real): int {
    Bucket(now - hours * 3600.0, BucketSeconds(hours))
  }

  function LastBucket(now: real, hours: real): int {
    Bucket(now, BucketSeconds(hours))
  }

  lemma InOrder(s: real, t: real, width: int)
    requires width > 0 && s <= t
    ensures Bucket(s, width) <= Bucket(t, width)
  {
    BucketBounds(s, width);
    BucketBounds(t, width);
    if Bucket(t, width) < Bucket(s, width) {
      EdgeOrder(Bucket(t, width) + 1, Bucket(s, width), width);
    }
  }

  /** A time of the window in a bucket between its ends. */
  lemma TimeInBucket(start: real, now: real, width: int, k: int) returns (t: real)
    requires width > 0 && start < now && Bucket(start, width) <= k <= Bucket(now, width)
    ensures start < t <= now && Bucket(t, width) == k
  {
    BucketBounds(start, width);
    BucketBounds(now, width);
    EdgeAfter(k, 1, width);
    if k == Bucket(now, width) {
      t := now;
    } else if k == Bucket(start, width) {
      t := (start + Edge(k + 1, width)) / 2.0;
      EdgeOrder(k + 1, Bucket(now, width), width);
      BucketIs(t, width, k);
    } else {
      t := Edge(k, width);
      EdgeOrder(Bucket(start, width) + 1, k, width);
      EdgeOrder(k, Bucket(now, width), width);
      BucketIs(t, width, k);
    }
  }

  /** A window touches exactly the buckets from the one its start lies in to the one its end lies in. */
  lemma TouchesExactly(now: real, hours: real, bucket: int)
    requires hours > 0.0
    ensures Touches(now, hours, bucket) <==> FirstBucket(now, hours) <= bucket <= LastBucket(now, hours)
  {
    var width := BucketSeconds(hours);
    var start := now - hours * 3600.0;
    if Touches(now, hours, bucket) {
      var t :| start < t <= now && Bucket(t, width) == bucket;
      InOrder(start, t, width);
      InOrder(t, now, width);
    }
    if FirstBucket(now, hours) <= bucket <= LastBucket(now, hours) {
      var t := TimeInBucket(start, now, width, bucket);
      assert start < t <= now && Bucket(t, width) == bucket;
    }
  }

  /** A window is shorter than 620 of its buckets. */
  lemma WindowIsShort(hours: real)
    requires hours > 0.0
    ensures hours * 3600.0 < 620.0 * BucketSeconds(hours) as real
  {
    var raw := hours * 3600.0 / TARGET_CHART_POINTS as real;
    assert raw == hours * 6.0;
    assert raw < raw.Floor as real + 1.0;
  }

  predicate Between(lo: int, k: int, hi: int) {
    lo <= k <= hi
  }

  function Range(lo: int, hi: int): set<int> {
    set k | lo <= k <= hi && Between(lo, k, hi)
  }

  lemma {:induction false} RangeSize(lo: int, hi: int)
    requires lo <= hi + 1
    ensures |Range(lo, hi)| == hi - lo + 1
    decreases hi - lo + 1
  {
    if lo <= hi {
      RangeSize(lo, hi - 1);
      var before := Range(lo, hi - 1);
      assert Range(lo, hi) == before + {hi} && hi !in before;
    } else {
      assert Range(lo, hi) == {};
    }
  }

  /** The buckets a chart has points for, at most. */
  function Touched(now: real, hours: real): set<int> {
    Range(FirstBucket(now, hours), LastBucket(now, hours))
  }

  /** However the window lies, it touches at most 621 buckets. */
  lemma ChartBound(now: real, hours: real)
    requires hours > 0.0
    ensures forall k :: k in Touched(now, hours) <==> Touches(now, hours, k)
    ensures |Touched(now, hours)| <= 621
  {
    forall k ensures k in Touched(now, hours) <==> Touches(now, hours, k) {
      TouchesExactly(now, hours, k);
    }
    var width, start := BucketSeconds(hours), now - hours * 3600.0;
    AtMost620Apart(start, now, width, hours);
    InOrder(start, now, width);
    RangeSize(FirstBucket(now, hours), LastBucket(now, hours));
  }

  lemma AtMost620Apart(start: real, now: real, width: int, hours: real)
    requires hours > 0.0 && width == BucketSeconds(hours) && start == now - hours * 3600.0
    ensures Bucket(now, width) - Bucket(start, width) <= 620
  {
    var first, last := Bucket(start, width), Bucket(now, width);
    BucketBounds(start, width);
    BucketBounds(now, width);
    WindowIsShort(hours);
    if last - first > 620 {
      EdgeOrder(first + 621, last, width);
      EdgeAfter(first + 1, 620, width);
    }
  }

  /** The bound is reached: 5.16 hours ending one second into a bucket. */
  lemma ChartBoundIsReached()
    ensures |Touched(18601.0, 5.16)| == 621
  {
    var hours, now := 5.16, 18601.0;
    assert hours * 3600.0 / TARGET_CHART_POINTS as real == 30.96;
    assert BucketSeconds(hours) == 30;
    BucketIs(now - hours * 3600.0, 30, 0);
    BucketIs(now, 30, 620);
    RangeSize(0, 620);
  }

  // ---------- And how few ----------

  /** From five hours on a window is at least 600 of its buckets long, below that a bucket is 30 seconds. */
  lemma WidthIsNoWider(hours: real)
    requires hours > 0.0
    ensures hours >= 5.0 ==> 600.0 * BucketSeconds(hours) as real <= hours * 3600.0
    ensures hours <= 5.0 ==> BucketSeconds(hours) == 30
  {
    var raw := hours * 3600.0 / TARGET_CHART_POINTS as real;
    assert raw == hours * 6.0;
  }

  /** A window of at least n buckets' length starts at least n buckets before it ends. */
  lemma AtLeastApart(start: real, now: real, width: int, n: nat)
    requires width > 0 && now - start >= n as real * width as real
    ensures Bucket(now, width) - Bucket(start, width) >= n
  {
    var first, last := Bucket(start, width), Bucket(now, width);
    BucketBounds(start, width);
    BucketBounds(now, width);
    if last - first < n {
      EdgeOrder(last + 1, first + n, width);
      EdgeAfter(first, n, width);
    }
  }

  lemma TouchedSize(now: real, hours: real)
    requires hours > 0.0
    ensures |Touched(now, hours)| == LastBucket(now, hours) - FirstBucket(now, hours) + 1
  {
    InOrder(now - hours * 3600.0, now, BucketSeconds(hours));
    RangeSize(FirstBucket(now, hours), LastBucket(now, hours));
  }

  /** The points a chart gets: 601 to 621 from five hours on; below that one for each 30 seconds, give or take one. */
  lemma ChartHasItsPoints(now: real, hours: real)
    requires hours > 0.0
    ensures hours >= 5.0 ==> 601 <= |Touched(now, hours)| <= 621
    ensures hours <= 5.0 ==> hours * 120.0 < |Touched(now, hours)| as real < hours * 120.0 + 2.0
  {
    var start, width := now - hours * 3600.0, BucketSeconds(hours);
    WidthIsNoWider(hours);
    TouchedSize(now, hours);
    ChartBound(now, hours);
    if hours >= 5.0 {
      AtLeastApart(start, now, width, 600);
    }
    if hours <= 5.0 {
      BucketBounds(start, 30);
      BucketBounds(now, 30);
    }
  }
}
