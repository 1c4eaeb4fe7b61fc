/** The windowed traffic aggregator: a time-bounded list of speed samples
    summarised over seven fixed trailing windows. The wall clock is the
    parameter `now` (milliseconds). */
module TrafficStats {

  const MINUTE: int := 60 * 1000
  const MINUTES_15: int := 15 * 60 * 1000
  const MINUTES_30: int := 30 * 60 * 1000
  const HOUR: int := 60 * 60 * 1000
  const HOURS_2: int := 2 * 60 * 60 * 1000
  const HOURS_3: int := 3 * 60 * 60 * 1000
  const HOURS_6: int := 6 * 60 * 60 * 1000

  /** Samples older than this are dropped on every append. */
  const MAX_AGE: int := HOURS_6

  /** Assumed seconds per sample when turning a speed sum into a byte total. */
  const SAMPLING_INTERVAL: real := 1.0

  datatype Point = Point(timestamp: int, uploadSpeed: real, downloadSpeed: real)

  datatype Stats = Stats(
    avgUpload: real, avgDownload: real,
    maxUpload: real, maxDownload: real,
    minUpload: real, minDownload: real,
    totalUpload: real, totalDownload: real)

  const ZeroStats: Stats := Stats(0.0, 0.0, 0.0, 0.0, 0.0, 0.0, 0.0, 0.0)

  // ---------------------------------------------------------------------
  // Sequences of samples
  // ---------------------------------------------------------------------

  /** `a` can be obtained from `b` by deleting elements, keeping the order. */
  predicate IsSubsequence<T(==)>(a: seq<T>, b: seq<T>)
    decreases |b|
  {
    |a| == 0 ||
    (|b| > 0 &&
     ((a[0] == b[0] && IsSubsequence(a[1..], b[1..])) || IsSubsequence(a, b[1..])))
  }

  /** The points whose timestamp is strictly after `cutoff`, in order. */
  function After(points: seq<Point>, cutoff: int): (r: seq<Point>)
    ensures forall p :: p in r <==> p in points && p.timestamp > cutoff
    ensures |r| <= |points|
  {
    if |points| == 0 then []
    else (if points[0].timestamp > cutoff then [points[0]] else []) + After(points[1..], cutoff)
  }

  lemma {:induction false} AfterIsSubsequence(points: seq<Point>, cutoff: int)
    ensures IsSubsequence(After(points, cutoff), points)
  {
    if |points| > 0 {
      AfterIsSubsequence(points[1..], cutoff);
      var rest := After(points[1..], cutoff);
      if points[0].timestamp > cutoff {
        assert After(points, cutoff) == [points[0]] + rest;
        assert ([points[0]] + rest)[1..] == rest;
      } else {
        assert After(points, cutoff) == rest;
        SubsequenceOfTail(rest, points);
      }
    }
  }

  lemma {:induction false} SubsequenceOfTail<T>(a: seq<T>, b: seq<T>)
    requires |b| > 0 && IsSubsequence(a, b[1..])
    ensures IsSubsequence(a, b)
  {
  }

  /** Filtering keeps each element exactly as often as it occurs, when it is kept at all. */
  lemma {:induction false} AfterMultiplicity(points: seq<Point>, cutoff: int, p: Point)
    ensures multiset(After(points, cutoff))[p] ==
            (if p.timestamp > cutoff then multiset(points)[p] else 0)
  {
    if |points| > 0 {
      AfterMultiplicity(points[1..], cutoff, p);
      assert points == [points[0]] + points[1..];
      assert multiset(points) == multiset([points[0]]) + multiset(points[1..]);
    }
  }

  /** Filtering with a later cutoff after an earlier one is the later filter alone. */
  lemma {:induction false} AfterAfter(points: seq<Point>, c1: int, c2: int)
    requires c1 <= c2
    ensures After(After(points, c1), c2) == After(points, c2)
  {
    if |points| > 0 {
      AfterAfter(points[1..], c1, c2);
      var rest := After(points[1..], c1);
      if points[0].timestamp > c1 {
        var mid := [points[0]] + rest;
        assert After(points, c1) == mid;
        assert mid[0] == points[0] && mid[1..] == rest;
        assert After(mid, c2) == (if points[0].timestamp > c2 then [points[0]] else []) + After(rest, c2);
      } else {
        assert After(points, c1) == rest;
      }
    }
  }

  /** Timestamps never decrease along the list. */
  predicate Sorted(points: seq<Point>)
  {
    forall i, j :: 0 <= i < j < |points| ==> points[i].timestamp <= points[j].timestamp
  }

  lemma {:induction false} SubsequenceOfSortedIsSorted(a: seq<Point>, b: seq<Point>)
    requires IsSubsequence(a, b) && Sorted(b)
    ensures Sorted(a)
    decreases |b|
  {
    if |a| > 0 {
      if a[0] == b[0] && IsSubsequence(a[1..], b[1..]) {
        SubsequenceOfSortedIsSorted(a[1..], b[1..]);
        SubsequenceMembers(a[1..], b[1..]);
        forall j | 0 < j < |a| ensures a[0].timestamp <= a[j].timestamp {
          assert a[j] == a[1..][j - 1];
          var k :| 0 <= k < |b[1..]| && b[1..][k] == a[j];
          assert b[k + 1] == a[j];
        }
      } else {
        SubsequenceOfSortedIsSorted(a, b[1..]);
      }
    }
  }

  lemma {:induction false} SubsequenceMembers<T>(a: seq<T>, b: seq<T>)
    requires IsSubsequence(a, b)
    ensures forall i :: 0 <= i < |a| ==> exists k :: 0 <= k < |b| && b[k] == a[i]
    decreases |b|
  {
    if |a| > 0 {
      if a[0] == b[0] && IsSubsequence(a[1..], b[1..]) {
        SubsequenceMembers(a[1..], b[1..]);
        forall i | 0 <= i < |a| ensures exists k :: 0 <= k < |b| && b[k] == a[i] {
          if i == 0 {
            assert b[0] == a[0];
          } else {
            assert a[i] == a[1..][i - 1];
            var k :| 0 <= k < |b[1..]| && b[1..][k] == a[1..][i - 1];
            assert b[k + 1] == a[i];
          }
        }
      } else {
        SubsequenceMembers(a, b[1..]);
        forall i | 0 <= i < |a| ensures exists k :: 0 <= k < |b| && b[k] == a[i] {
          var k :| 0 <= k < |b[1..]| && b[1..][k] == a[i];
          assert b[k + 1] == a[i];
        }
      }
    }
  }

  // ---------------------------------------------------------------------
  // Folds over speed series
  // ---------------------------------------------------------------------

  function Uploads(points: seq<Point>): (r: seq<real>)
    ensures |r| == |points|
  {
    seq(|points|, i requires 0 <= i < |points| => points[i].uploadSpeed)
  }

  function Downloads(points: seq<Point>): (r: seq<real>)
    ensures |r| == |points|
  {
    seq(|points|, i requires 0 <= i < |points| => points[i].downloadSpeed)
  }

  /** Left-to-right sum, the order in which the source accumulates. */
  function Sum(s: seq<real>): real
  {
    if |s| == 0 then 0.0 else Sum(s[..|s| - 1]) + s[|s| - 1]
  }

  /** Largest element, folded left to right. */
  function Max(s: seq<real>): (r: real)
    requires |s| > 0
    ensures r in s
    ensures forall i :: 0 <= i < |s| ==> s[i] <= r
  {
    if |s| == 1 then s[0]
    else
      var init := s[..|s| - 1];
      var m := Max(init);
      assert forall i :: 0 <= i < |init| ==> s[i] == init[i];
      if s[|s| - 1] > m then s[|s| - 1] else m
  }

  /** Smallest element, folded left to right. */
  function Min(s: seq<real>): (r: real)
    requires |s| > 0
    ensures r in s
    ensures forall i :: 0 <= i < |s| ==> r <= s[i]
  {
    if |s| == 1 then s[0]
    else
      var init := s[..|s| - 1];
      var m := Min(init);
      assert forall i :: 0 <= i < |init| ==> s[i] == init[i];
      if s[|s| - 1] < m then s[|s| - 1] else m
  }

  /** `n` copies of `x` added up: multiplication by a count, written so that
      the bounds below stay linear. */
  function Repeat(x: real, n: nat): real
  {
    if n == 0 then 0.0 else Repeat(x, n - 1) + x
  }

  lemma {:induction false} RepeatIsProduct(x: real, n: nat)
    ensures Repeat(x, n) == x * (n as real)
  {
    if n > 0 {
      RepeatIsProduct(x, n - 1);
    }
  }

  /** A sum of `n` values between `lo` and `hi` lies between `n*lo` and `n*hi`. */
  lemma {:induction false} SumBounds(s: seq<real>, lo: real, hi: real)
    requires forall i :: 0 <= i < |s| ==> lo <= s[i] <= hi
    ensures Repeat(lo, |s|) <= Sum(s) <= Repeat(hi, |s|)
  {
    if |s| > 0 {
      SumBounds(s[..|s| - 1], lo, hi);
    }
  }

  lemma DivideBounds(lo: real, x: real, hi: real, n: nat)
    requires n > 0 && Repeat(lo, n) <= x <= Repeat(hi, n)
    ensures lo <= x / (n as real) <= hi
  {
    RepeatIsProduct(lo, n);
    RepeatIsProduct(hi, n);
    assert (x / (n as real)) * (n as real) == x;
  }

  /** The average of a non-empty series lies between its minimum and maximum. */
  lemma {:induction false} AverageBetweenMinAndMax(s: seq<real>)
    requires |s| > 0
    ensures Min(s) <= Sum(s) / (|s| as real) <= Max(s)
  {
    SumBounds(s, Min(s), Max(s));
    DivideBounds(Min(s), Sum(s), Max(s), |s|);
  }


  // ---------------------------------------------------------------------
  // The aggregator's operations
  // ---------------------------------------------------------------------

  /** `addDataPoint`: append the sample, then keep only the points younger
      than `MAX_AGE` measured from `now` (not from the sample's own time). */
  function AddDataPoint(points: seq<Point>, timestamp: int, uploadSpeed: real,
                        downloadSpeed: real, now: int): (r: seq<Point>)
    ensures forall p :: p in r ==> p.timestamp > now - MAX_AGE
    ensures IsSubsequence(r, points + [Point(timestamp, uploadSpeed, downloadSpeed)])
    ensures forall p :: p in points && p.timestamp > now - MAX_AGE ==> p in r
    ensures timestamp > now - MAX_AGE ==>
              |r| > 0 && r[|r| - 1] == Point(timestamp, uploadSpeed, downloadSpeed)
  {
    var all := points + [Point(timestamp, uploadSpeed, downloadSpeed)];
    AfterIsSubsequence(all, now - MAX_AGE);
    AfterOfSnoc(points, Point(timestamp, uploadSpeed, downloadSpeed), now - MAX_AGE);
    After(all, now - MAX_AGE)
  }

  /** Appending keeps every in-window point exactly as many times as it
      occurs in the old list plus the new sample, and no out-of-window point
      at all. */
  lemma AddDataPointCounts(points: seq<Point>, timestamp: int, uploadSpeed: real,
                           downloadSpeed: real, now: int, p: Point)
    ensures multiset(AddDataPoint(points, timestamp, uploadSpeed, downloadSpeed, now))[p] ==
            (if p.timestamp > now - MAX_AGE
             then multiset(points + [Point(timestamp, uploadSpeed, downloadSpeed)])[p] else 0)
  {
    AfterMultiplicity(points + [Point(timestamp, uploadSpeed, downloadSpeed)], now - MAX_AGE, p);
  }

  lemma {:induction false} AfterOfSnoc(points: seq<Point>, p: Point, cutoff: int)
    ensures After(points + [p], cutoff) ==
            After(points, cutoff) + (if p.timestamp > cutoff then [p] else [])
  {
    if |points| == 0 {
      assert points + [p] == [p];
    } else {
      assert (points + [p])[1..] == points[1..] + [p];
      AfterOfSnoc(points[1..], p, cutoff);
    }
  }

  /** Appending a sample no older than the last one keeps the list sorted. */
  lemma {:induction false} AddDataPointKeepsSorted(points: seq<Point>, timestamp: int, up: real, down: real, now: int)
    requires Sorted(points)
    requires |points| > 0 ==> points[|points| - 1].timestamp <= timestamp
    ensures Sorted(AddDataPoint(points, timestamp, up, down, now))
  {
    var all := points + [Point(timestamp, up, down)];
    assert Sorted(all) by {
      forall i, j | 0 <= i < j < |all| ensures all[i].timestamp <= all[j].timestamp {
        if j == |all| - 1 && i < |points| {
          assert points[i].timestamp <= points[|points| - 1].timestamp;
        }
      }
    }
    SubsequenceOfSortedIsSorted(AddDataPoint(points, timestamp, up, down, now), all);
  }

  /** The samples a query for a window of `interval` ms at time `now` looks at. */
  function Window(points: seq<Point>, now: int, interval: int): seq<Point>
  {
    After(points, now - interval)
  }

  /** Average, maximum, minimum and total of one non-empty speed series. */
  datatype Summary = Summary(avg: real, max: real, min: real, total: real)

  /** Summarises one series as the source's reduce does: extremes and sum over
      the series, the average as sum over count, the total as the sum scaled
      by the assumed sampling interval. */
  function Summarize(s: seq<real>): (r: Summary)
    requires |s| > 0
    ensures r.min <= r.avg <= r.max
    ensures r.max in s && r.min in s
    ensures forall i :: 0 <= i < |s| ==> r.min <= s[i] <= r.max
    ensures r.total == Sum(s)
    ensures r.avg == r.total / (|s| as real)
  {
    var n := |s| as real;
    var total := Sum(s);
    AverageBetweenMinAndMax(s);
    assert total * SAMPLING_INTERVAL == total by {
      assert SAMPLING_INTERVAL == 1.0;
    }
    Summary(total / n, Max(s), Min(s), total * SAMPLING_INTERVAL)
  }

  /** `calculateStats`: avg/min/max/total of each speed series over the window;
      the all-zero summary when the window is empty. */
  function CalculateStats(points: seq<Point>, now: int, interval: int): (r: Stats)
    ensures |Window(points, now, interval)| == 0 ==> r == ZeroStats
  {
    var w := Window(points, now, interval);
    if |w| == 0 then ZeroStats
    else
      var up := Summarize(Uploads(w));
      var down := Summarize(Downloads(w));
      Stats(up.avg, down.avg, up.max, down.max, up.min, down.min, up.total, down.total)
  }

  /** On a non-empty window each average lies between the series' minimum and
      maximum, each total is the sum of the speeds, and average times count is
      the total. */
  lemma {:induction false} StatsAverages(points: seq<Point>, now: int, interval: int)
    requires |Window(points, now, interval)| > 0
    ensures var r := CalculateStats(points, now, interval);
            var w := Window(points, now, interval);
            && r.minUpload <= r.avgUpload <= r.maxUpload
            && r.minDownload <= r.avgDownload <= r.maxDownload
            && r.totalUpload == Sum(Uploads(w)) && r.totalDownload == Sum(Downloads(w))
            && r.avgUpload == r.totalUpload / (|w| as real)
            && r.avgDownload == r.totalDownload / (|w| as real)
  {
    var w := Window(points, now, interval);
    var up := Summarize(Uploads(w));
    var down := Summarize(Downloads(w));
    assert CalculateStats(points, now, interval) ==
           Stats(up.avg, down.avg, up.max, down.max, up.min, down.min, up.total, down.total);
  }

  /** On a non-empty window the maximum and minimum are attained by points of
      the window and bound every point's speed. */
  lemma {:induction false} StatsExtremes(points: seq<Point>, now: int, interval: int)
    requires |Window(points, now, interval)| > 0
    ensures var r := CalculateStats(points, now, interval);
            var w := Window(points, now, interval);
            && (exists i :: 0 <= i < |w| && w[i].uploadSpeed == r.maxUpload)
            && (exists i :: 0 <= i < |w| && w[i].uploadSpeed == r.minUpload)
            && (exists i :: 0 <= i < |w| && w[i].downloadSpeed == r.maxDownload)
            && (exists i :: 0 <= i < |w| && w[i].downloadSpeed == r.minDownload)
            && (forall i :: 0 <= i < |w| ==> r.minUpload <= w[i].uploadSpeed <= r.maxUpload)
            && (forall i :: 0 <= i < |w| ==> r.minDownload <= w[i].downloadSpeed <= r.maxDownload)
  {
    var r := CalculateStats(points, now, interval);
    var w := Window(points, now, interval);
    var ups, downs := Uploads(w), Downloads(w);
    var up, down := Summarize(ups), Summarize(downs);
    assert r == Stats(up.avg, down.avg, up.max, down.max, up.min, down.min, up.total, down.total);
    var a :| 0 <= a < |ups| && ups[a] == r.maxUpload;
    var b :| 0 <= b < |ups| && ups[b] == r.minUpload;
    var c :| 0 <= c < |downs| && downs[c] == r.maxDownload;
    var d :| 0 <= d < |downs| && downs[d] == r.minDownload;
    assert w[a].uploadSpeed == r.maxUpload && w[b].uploadSpeed == r.minUpload;
    assert w[c].downloadSpeed == r.maxDownload && w[d].downloadSpeed == r.minDownload;
    forall i | 0 <= i < |w|
      ensures r.minUpload <= w[i].uploadSpeed <= r.maxUpload
      ensures r.minDownload <= w[i].downloadSpeed <= r.maxDownload
    {
      assert ups[i] == w[i].uploadSpeed && downs[i] == w[i].downloadSpeed;
    }
  }

  /** A shorter window at the same `now` sees a subset of a longer one's
      points, so its peak is no higher and its minimum no lower. */
  lemma {:induction false} NestedWindows(points: seq<Point>, now: int, w1: int, w2: int)
    requires w1 <= w2
    requires |Window(points, now, w1)| > 0
    ensures forall p :: p in Window(points, now, w1) ==> p in Window(points, now, w2)
    ensures CalculateStats(points, now, w1).maxUpload <= CalculateStats(points, now, w2).maxUpload
    ensures CalculateStats(points, now, w1).maxDownload <= CalculateStats(points, now, w2).maxDownload
    ensures CalculateStats(points, now, w1).minUpload >= CalculateStats(points, now, w2).minUpload
    ensures CalculateStats(points, now, w1).minDownload >= CalculateStats(points, now, w2).minDownload
  {
    var s1 := CalculateStats(points, now, w1);
    var inner := Window(points, now, w1);
    var outer := Window(points, now, w2);
    StatsExtremes(points, now, w1);
    StatsExtremes(points, now, w2);
    var a :| 0 <= a < |inner| && inner[a].uploadSpeed == s1.maxUpload;
    var b :| 0 <= b < |inner| && inner[b].uploadSpeed == s1.minUpload;
    var c :| 0 <= c < |inner| && inner[c].downloadSpeed == s1.maxDownload;
    var d :| 0 <= d < |inner| && inner[d].downloadSpeed == s1.minDownload;
    InOuterWindow(inner, outer, inner[a]);
    InOuterWindow(inner, outer, inner[b]);
    InOuterWindow(inner, outer, inner[c]);
    InOuterWindow(inner, outer, inner[d]);
  }

  lemma {:induction false} InOuterWindow(inner: seq<Point>, outer: seq<Point>, p: Point)
    requires p in inner && forall q :: q in inner ==> q in outer
    ensures exists j :: 0 <= j < |outer| && outer[j] == p
  {
    assert p in outer;
  }

  // ---------------------------------------------------------------------
  // The source's reduce, with its infinite seeds
  // ---------------------------------------------------------------------

  /** A number or one of JavaScript's two infinities. */
  datatype Extended = NegInfinity | PosInfinity | Finite(v: real)

  function ExtMax(a: Extended, x: real): Extended
  {
    match a
    case NegInfinity => Finite(x)
    case PosInfinity => PosInfinity
    case Finite(v) => Finite(if x > v then x else v)
  }

  function ExtMin(a: Extended, x: real): Extended
  {
    match a
    case NegInfinity => NegInfinity
    case PosInfinity => Finite(x)
    case Finite(v) => Finite(if x < v then x else v)
  }

  /** One series of the source's reduce: `Math.max`/`Math.min` from the seeds
      -Infinity/+Infinity and `+=` from 0, then sum over count. */
  method ReduceSeries(s: seq<real>) returns (r: Summary)
    requires |s| > 0
    ensures r == Summarize(s)
  {
    var hi, lo, total := NegInfinity, PosInfinity, 0.0;
    var i := 0;
    while i < |s|
      invariant 0 <= i <= |s|
      invariant i == 0 ==> hi == NegInfinity && lo == PosInfinity
      invariant i > 0 ==> hi == Finite(Max(s[..i])) && lo == Finite(Min(s[..i]))
      invariant total == Sum(s[..i])
    {
      assert s[..i + 1][..i] == s[..i];
      hi := ExtMax(hi, s[i]);
      lo := ExtMin(lo, s[i]);
      total := total + s[i];
      i := i + 1;
    }
    assert s[..i] == s;
    var count := |s| as real;
    r := Summary(total / count, hi.v, lo.v, total * SAMPLING_INTERVAL);
  }

  /** `calculateStats` as the source writes it, one reduce per speed series;
      it agrees with the definition above. */
  method CalculateStatsByReduce(points: seq<Point>, now: int, interval: int) returns (r: Stats)
    ensures r == CalculateStats(points, now, interval)
  {
    var period := After(points, now - interval);
    if |period| == 0 {
      return ZeroStats;
    }
    var up := ReduceSeries(Uploads(period));
    var down := ReduceSeries(Downloads(period));
    r := Stats(up.avg, down.avg, up.max, down.max, up.min, down.min, up.total, down.total);
  }

  // ---------------------------------------------------------------------
  // All windows at once
  // ---------------------------------------------------------------------

  /** The seven fixed windows. */
  datatype Period = OneMinute | FifteenMinutes | ThirtyMinutes | OneHour | TwoHours | ThreeHours | SixHours

  const ALL_PERIODS: set<Period> :=
    {OneMinute, FifteenMinutes, ThirtyMinutes, OneHour, TwoHours, ThreeHours, SixHours}

  /** The length of each window in milliseconds. */
  function IntervalOf(p: Period): int
  {
    match p
    case OneMinute => MINUTE
    case FifteenMinutes => MINUTES_15
    case ThirtyMinutes => MINUTES_30
    case OneHour => HOUR
    case TwoHours => HOURS_2
    case ThreeHours => HOURS_3
    case SixHours => HOURS_6
  }

  /** The key under which each window is reported. */
  function LabelOf(p: Period): string
  {
    match p
    case OneMinute => "1min"
    case FifteenMinutes => "15min"
    case ThirtyMinutes => "30min"
    case OneHour => "1hour"
    case TwoHours => "2hours"
    case ThreeHours => "3hours"
    case SixHours => "6hours"
  }

  /** The windows get longer in declaration order, and the longest is the
      retention horizon. */
  lemma PeriodsIncrease()
    ensures IntervalOf(OneMinute) < IntervalOf(FifteenMinutes) < IntervalOf(ThirtyMinutes)
            < IntervalOf(OneHour) < IntervalOf(TwoHours) < IntervalOf(ThreeHours)
            < IntervalOf(SixHours) == MAX_AGE
    ensures forall p :: 0 < IntervalOf(p) <= MAX_AGE
  {
  }

  /** `getAllStats`: exactly the seven windows, each mapped to the summary of
      its own window, computed independently. */
  function GetAllStats(points: seq<Point>, now: int): (r: map<Period, Stats>)
    ensures r.Keys == ALL_PERIODS
    ensures forall p :: p in r ==> r[p] == CalculateStats(points, now, IntervalOf(p))
  {
    map p | p in ALL_PERIODS :: CalculateStats(points, now, IntervalOf(p))
  }

  /** The seven report keys are pairwise different, so keying the report by
      period loses nothing. */
  lemma LabelsDistinct()
    ensures forall p, q :: LabelOf(p) == LabelOf(q) ==> p == q
  {
  }

  /** Every period is one of the seven. */
  lemma {:induction false} SevenPeriods(points: seq<Point>, now: int)
    ensures forall p: Period :: p in GetAllStats(points, now)
  {
    forall p: Period ensures p in ALL_PERIODS {
      assert p.OneMinute? || p.FifteenMinutes? || p.ThirtyMinutes? || p.OneHour?
          || p.TwoHours? || p.ThreeHours? || p.SixHours?;
    }
  }

  /** With no samples at all every window of every query is all zeros. */
  lemma {:induction false} EmptyAggregatorIsAllZero(now: int, interval: int)
    ensures CalculateStats([], now, interval) == ZeroStats
    ensures forall p :: p in GetAllStats([], now) ==> GetAllStats([], now)[p] == ZeroStats
  {
  }

  /** A two-element series: the smaller value is the minimum, the larger the
      maximum, the total their sum and the average half of it. */
  lemma {:induction false} SummarizePair(x: real, y: real)
    requires x <= y
    ensures Summarize([x, y]) == Summary((x + y) / 2.0, y, x, x + y)
  {
    var s := [x, y];
    assert s[..1] == [x] && [x][..0] == [];
    assert Sum([x]) == Sum([]) + x == x;
    assert Sum(s) == Sum([x]) + y;
    assert Max(s) == y && Min(s) == x;
    assert SAMPLING_INTERVAL == 1.0;
    assert |s| as real == 2.0;
  }

  /** Two appends a second apart keep both samples, and a one-hour query at the
      second append's time sees both. */
  lemma {:induction false} TwoSamplesKept(t0: int)
    ensures var ps := AddDataPoint(AddDataPoint([], t0, 100.0, 200.0, t0), t0 + 1000, 300.0, 400.0, t0 + 1000);
            Window(ps, t0 + 1000, HOUR) == [Point(t0, 100.0, 200.0), Point(t0 + 1000, 300.0, 400.0)]
  {
    var now := t0 + 1000;
    var a := Point(t0, 100.0, 200.0);
    var b := Point(t0 + 1000, 300.0, 400.0);
    var first := AddDataPoint([], t0, 100.0, 200.0, t0);
    assert first == [a] by {
      AfterOfSnoc([], a, t0 - MAX_AGE);
      assert [] + [a] == [a];
    }
    assert AddDataPoint(first, t0 + 1000, 300.0, 400.0, now) == [a, b] by {
      AfterOfPair(a, b, now - MAX_AGE);
    }
    AfterOfPair(a, b, now - HOUR);
  }

  /** Both samples of a pair newer than the cutoff survive it, in order. */
  lemma AfterOfPair(a: Point, b: Point, cutoff: int)
    requires a.timestamp > cutoff && b.timestamp > cutoff
    ensures After([a] + [b], cutoff) == [a, b]
    ensures After([a, b], cutoff) == [a, b]
  {
    assert [a] + [b] == [a, b];
    AfterOfSnoc([a], b, cutoff);
    AfterOfSnoc([], a, cutoff);
    assert [] + [a] == [a];
  }

  /** Two samples, 100/200 then 300/400, both inside a one-hour window. */
  lemma {:induction false} TwoSampleScenario(t0: int)
    ensures var now := t0 + 1000;
            var ps := AddDataPoint(AddDataPoint([], t0, 100.0, 200.0, t0), t0 + 1000, 300.0, 400.0, now);
            var s := CalculateStats(ps, now, HOUR);
            && s.avgUpload == 200.0 && s.maxUpload == 300.0 && s.minUpload == 100.0
            && s.totalUpload == 400.0
            && s.avgDownload == 300.0 && s.maxDownload == 400.0 && s.minDownload == 200.0
            && s.totalDownload == 600.0
  {
    TwoSamplesKept(t0);
    var w := [Point(t0, 100.0, 200.0), Point(t0 + 1000, 300.0, 400.0)];
    assert Uploads(w) == [100.0, 300.0] && Downloads(w) == [200.0, 400.0];
    SummarizePair(100.0, 300.0);
    SummarizePair(200.0, 400.0);
  }
}
