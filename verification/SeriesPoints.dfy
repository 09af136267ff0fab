/** What every point of a native read shows, told from the stored polls value by value. */
module SeriesPoints {
  import opened Common
  import opened Polls
  import opened Series
  import opened SeriesReads
  import opened SeriesLaws
  import PublicLaws

  // ---------- Counters ----------

  predicate HoldsCounter(p: Poll, k: Key) {
    k in p.samples && p.samples[k].kind == Counter
  }

  /** The nearest poll before position m that holds the counter. */
  ghost predicate Nearest(db: seq<Poll>, m: nat, k: Key, j: int)
    requires m < |db|
  {
    0 <= j < m && HoldsCounter(db[j], k) && forall i :: j < i < m ==> !HoldsCounter(db[i], k)
  }

  /** What the counter gained since that poll, if both are of one run and it did not drop. */
  ghost predicate Gained(out: Option<real>, db: seq<Poll>, m: nat, k: Key)
    requires m < |db|
  {
    if out.None? then
      !HoldsCounter(db[m], k)
      || forall j :: Nearest(db, m, k, j) ==>
                       db[j].run != db[m].run || db[j].samples[k].value > db[m].samples[k].value
    else
      && HoldsCounter(db[m], k)
      && exists j :: Nearest(db, m, k, j) && db[j].run == db[m].run
                     && out.value == db[m].samples[k].value - db[j].samples[k].value >= 0.0
  }

  /** Both counters are measured from the same poll. */
  ghost predicate SameInterval(db: seq<Poll>, m: nat, a: Key, b: Key)
    requires m < |db|
  {
    exists j :: Nearest(db, m, a, j) && Nearest(db, m, b, j)
  }

  // ---------- Gauges ----------

  predicate Shows(out: Option<real>, p: Poll, k: Key) {
    && (out.Some? <==> k in p.samples && p.samples[k].kind == Gauge)
    && (out.Some? ==> out.value == p.samples[k].value)
  }

  /** The share that a part has in a whole, absent unless it is one. */
  predicate Share(out: Option<real>, part: Option<real>, whole: Option<real>) {
    && (out.Some? <==> part.Some? && whole.Some? && 0.0 <= part.value <= whole.value && whole.value > 0.0)
    && (out.Some? ==> out.value * whole.value == part.value)
  }

  ghost predicate CountersMean(point: SeriesPoint, db: seq<Poll>, m: nat)
    requires m < |db|
  {
    && point.pollId == db[m].id && point.ts == db[m].ts && point.run == db[m].run
    && Gained(point.requests, db, m, HttpRequestsTotal)
    && Gained(point.http404, db, m, Http404Total)
    && Gained(point.http4xx, db, m, Http4xxTotal)
    && Gained(point.http5xx, db, m, Http5xxTotal)
    && (point.paired4xx <==> point.requests.Some? && point.http4xx.Some?
                             && SameInterval(db, m, HttpRequestsTotal, Http4xxTotal))
    && (point.paired5xx <==> point.requests.Some? && point.http5xx.Some?
                             && SameInterval(db, m, HttpRequestsTotal, Http5xxTotal))
  }

  /** The time gained over the requests gained since the same poll. */
  ghost predicate LatencyMeans(point: SeriesPoint, db: seq<Poll>, m: nat)
    requires m < |db|
  {
    exists time ::
      && Gained(time, db, m, HttpRequestTimeTotal)
      && (point.latency.Some? <==> time.Some? && point.requests.Some? && point.requests.value > 0.0
                                   && SameInterval(db, m, HttpRequestsTotal, HttpRequestTimeTotal))
      && (point.latency.Some? ==> point.latency.value * point.requests.value == time.value)
  }

  ghost predicate GaugesMean(point: SeriesPoint, p: Poll) {
    && Shows(point.heapUsed, p, if RuntimeHeapUsed in p.samples && p.samples[RuntimeHeapUsed].kind == Gauge
                                then RuntimeHeapUsed else JvmHeapUsed)
    && Shows(point.processCpu, p, ProcessCpuUsage)
    && point.cpuUnit == (if ProcessCpuUsage in p.samples then p.samples[ProcessCpuUsage].units else "")
    && Shows(point.hostCpu, p, HostCpuUsage)
    && Shows(point.memoryUsed, p, HostMemoryUsed) && Shows(point.memoryTotal, p, HostMemoryTotal)
    && Share(point.memoryUsage, point.memoryUsed, point.memoryTotal)
    && Shows(point.diskUsed, p, HostDiskUsed) && Shows(point.diskTotal, p, HostDiskTotal)
    && Share(point.diskUsage, point.diskUsed, point.diskTotal)
  }

  // ---------- One point ----------

  /** The baseline that history has for a counter is its nearest holder. */
  lemma {:induction false} NearestIsLast(db: seq<Poll>, m: nat, k: Key) returns (j: int)
    requires m < |db| && k in COUNTER_KEYS
    ensures k in History(db[..m]) <==> j >= 0
    ensures j >= 0 ==> Nearest(db, m, k, j) && History(db[..m])[k] == Entry(db[j], k)
    ensures j >= 0 ==> History(db[..m])[k].pollId == db[j].id
    ensures j < 0 ==> forall i :: !Nearest(db, m, k, i)
  {
    j := LastHolder(db, m, k);
  }

  lemma {:induction false} LastHolder(db: seq<Poll>, m: nat, k: Key) returns (j: int)
    requires m <= |db|
    ensures -1 <= j < m && (j >= 0 ==> HoldsCounter(db[j], k)) && forall i :: j < i < m ==> !HoldsCounter(db[i], k)
    ensures LastCarrier(db[..m], k) == if j < 0 then None else Some(db[j])
  {
    if m == 0 {
      j := -1;
    } else {
      InitOfPrefix(db, m - 1);
      if HoldsCounter(db[m - 1], k) {
        j := m - 1;
      } else {
        j := LastHolder(db, m - 1, k);
      }
    }
  }

  lemma {:induction false} OneNearest(db: seq<Poll>, m: nat, k: Key, i: int, j: int)
    requires m < |db| && Nearest(db, m, k, i) && Nearest(db, m, k, j)
    ensures i == j
  {
  }

  lemma {:induction false} DeltaIsGained(db: seq<Poll>, m: nat, k: Key)
    requires m < |db| && k in COUNTER_KEYS
    ensures Gained(CounterDelta(View(db[m]), History(db[..m]), k), db, m, k)
  {
    hide History, Nearest;
    ViewCarries(db[m], k);
    var j := NearestIsLast(db, m, k);
    if j >= 0 {
      forall i | Nearest(db, m, k, i) ensures i == j {
        OneNearest(db, m, k, i, j);
      }
      HolderAt(db, m, k, j);
    }
  }

  lemma {:induction false} HolderAt(db: seq<Poll>, m: nat, k: Key, j: int)
    requires m < |db| && Nearest(db, m, k, j)
    ensures 0 <= j < m && Carries(db[j], k)
  {
  }

  lemma {:induction false} MatchIsSameInterval(db: seq<Poll>, m: nat, a: Key, b: Key)
    requires Ordered(db) && m < |db| && a in COUNTER_KEYS && b in COUNTER_KEYS
    ensures MatchingBaseline(History(db[..m]), a, b) <==> SameInterval(db, m, a, b)
  {
    hide History, Nearest, Ordered, Carries, Entry;
    var i := NearestIsLast(db, m, a);
    var j := NearestIsLast(db, m, b);
    if i >= 0 && j >= 0 {
      SameIdSamePlace(db, i, j);
      HolderAt(db, m, a, i);
      HolderAt(db, m, b, j);
      if SameInterval(db, m, a, b) {
        var l :| Nearest(db, m, a, l) && Nearest(db, m, b, l);
        OneNearest(db, m, a, i, l);
        OneNearest(db, m, b, j, l);
      }
    }
  }

  lemma {:induction false} SameIdSamePlace(db: seq<Poll>, i: int, j: int)
    requires Ordered(db) && 0 <= i < |db| && 0 <= j < |db|
    ensures db[i].id == db[j].id <==> i == j
  {
  }

  lemma {:induction false} CountersOfPoint(db: seq<Poll>, m: nat)
    requires Ordered(db) && m < |db|
    ensures CountersMean(PointOf(View(db[m]), History(db[..m])), db, m)
  {
    hide History, CounterDelta, Gained, SameInterval, GaugeValue, RuntimeMemory, UsagePercentage, Latency, Ordered;
    DeltaIsGained(db, m, HttpRequestsTotal);
    DeltaIsGained(db, m, Http404Total);
    DeltaIsGained(db, m, Http4xxTotal);
    DeltaIsGained(db, m, Http5xxTotal);
    MatchIsSameInterval(db, m, HttpRequestsTotal, Http4xxTotal);
    MatchIsSameInterval(db, m, HttpRequestsTotal, Http5xxTotal);
  }

  lemma {:induction false} LatencyOfPoint(db: seq<Poll>, m: nat)
    requires Ordered(db) && m < |db|
    ensures LatencyMeans(PointOf(View(db[m]), History(db[..m])), db, m)
  {
    hide History, CounterDelta, Gained, SameInterval, GaugeValue, RuntimeMemory, UsagePercentage, Ordered, Paired;
    DeltaIsGained(db, m, HttpRequestTimeTotal);
    MatchIsSameInterval(db, m, HttpRequestsTotal, HttpRequestTimeTotal);
    var time := CounterDelta(View(db[m]), History(db[..m]), HttpRequestTimeTotal);
    assert Gained(time, db, m, HttpRequestTimeTotal);
  }

  lemma {:induction false} GaugeIsShown(p: Poll, k: Key)
    requires IsSeriesKey(k)
    ensures Shows(GaugeValue(View(p), k), p, k)
  {
  }

  lemma {:induction false} UsageIsShare(part: Option<real>, whole: Option<real>)
    ensures Share(UsagePercentage(part, whole), part, whole)
  {
  }

  lemma {:induction false} UnitIsKept(p: Poll, base: Baseline)
    ensures PointOf(View(p), base).cpuUnit ==
            if ProcessCpuUsage in p.samples then p.samples[ProcessCpuUsage].units else ""
  {
  }

  lemma {:induction false} GaugesOfPoint(p: Poll, base: Baseline)
    ensures GaugesMean(PointOf(View(p), base), p)
  {
    hide CounterDelta, Latency, Paired, GaugeValue, UsagePercentage, View, Share;
    UnitIsKept(p, base);
    GaugeIsShown(p, RuntimeHeapUsed);
    GaugeIsShown(p, JvmHeapUsed);
    GaugeIsShown(p, ProcessCpuUsage);
    GaugeIsShown(p, HostCpuUsage);
    GaugeIsShown(p, HostMemoryUsed);
    GaugeIsShown(p, HostMemoryTotal);
    GaugeIsShown(p, HostDiskUsed);
    GaugeIsShown(p, HostDiskTotal);
    UsageIsShare(GaugeValue(View(p), HostMemoryUsed), GaugeValue(View(p), HostMemoryTotal));
    UsageIsShare(GaugeValue(View(p), HostDiskUsed), GaugeValue(View(p), HostDiskTotal));
  }

  // ---------- A whole read ----------

  /** A poll of the window with any of the thirteen series samples. */
  ghost predicate Plotted(p: Poll, start: int, end: int) {
    start <= p.ts <= end && exists k :: k in p.samples && !k.OtherKey?
  }

  ghost predicate PointMeans(point: SeriesPoint, db: seq<Poll>, m: nat)
    requires m < |db|
  {
    CountersMean(point, db, m) && LatencyMeans(point, db, m) && GaugesMean(point, db[m])
  }

  /** The number of plotted polls before position m. */
  ghost function Rank(db: seq<Poll>, start: int, end: int, m: nat): nat
    requires m <= |db|
  {
    if m == 0 then 0 else Rank(db, start, end, m - 1) + if Plotted(db[m - 1], start, end) then 1 else 0
  }

  lemma {:induction false} RankCountsViews(db: seq<Poll>, start: int, end: int, m: nat)
    requires m <= |db|
    ensures |Views(Between(db[..m], start, end + 1))| == Rank(db, start, end, m)
  {
    hide View;
    if m > 0 {
      InitOfPrefix(db, m - 1);
      RankCountsViews(db, start, end, m - 1);
      var window := Between(db[..m - 1], start, end + 1);
      InitOfAppend(window, db[m - 1]);
    }
  }

  /** Every plotted poll has its point in the read, in their order, and it means what it shows. */
  lemma {:induction false} PlottedPollHasPoint(db: seq<Poll>, start: int, end: int, m: nat)
    requires Ordered(db) && m < |db| && Plotted(db[m], start, end)
    ensures
      var points, i := NativePoints(db, start, end, ZERO_TIME), Rank(db, start, end, m);
      i < |points| && PointMeans(points[i], db, m)
  {
    hide Ordered, PointOf, History, CountersMean, LatencyMeans, GaugesMean, Views, Between, Rank;
    NativePointIsLocal(db, start, end, m);
    RankCountsViews(db, start, end, m);
    CountersOfPoint(db, m);
    LatencyOfPoint(db, m);
    GaugesOfPoint(db[m], History(db[..m]));
  }

  /** Every point of the read is that of a plotted poll, and there are as many. */
  lemma {:induction false} PointHasPlottedPoll(db: seq<Poll>, start: int, end: int, i: nat) returns (m: nat)
    requires Ordered(db) && i < |NativePoints(db, start, end, ZERO_TIME)|
    ensures m < |db| && Plotted(db[m], start, end) && Rank(db, start, end, m) == i
    ensures PointMeans(NativePoints(db, start, end, ZERO_TIME)[i], db, m)
    ensures |NativePoints(db, start, end, ZERO_TIME)| == Rank(db, start, end, |db|)
  {
    hide Ordered, PointMeans, Rank;
    ChooseAll(Between(db, start, end + 1), None);
    m := PublicLaws.SourceOf(db, start, end, i);
    RankCountsViews(db, start, end, m);
    RankCountsViews(db, start, end, |db|);
    WholePrefix(db);
    PlottedPollHasPoint(db, start, end, m);
  }

  /** What surrounds the points: the first poll id, the latest point, and its disk. */
  lemma {:induction false} SeriesMeans(start: int, end: int, points: seq<SeriesPoint>)
    ensures
      var series := SeriesOf(start, end, points);
      && series.start == start && series.end == end && series.points == points
      && (points == [] ==> series.firstPollId == 0 && series.latestPoint == None && series.currentHostDisk == None)
      && (points != [] ==>
            && series.firstPollId == points[0].pollId && series.latestPoint == Some(points[|points| - 1])
            && DiskMeans(series.currentHostDisk, points[|points| - 1]))
  {
  }

  predicate DiskMeans(disk: Option<DiskCurrent>, point: SeriesPoint) {
    && (disk.Some? <==> point.diskUsed.Some? && point.diskTotal.Some? && point.diskUsage.Some?)
    && (disk.Some? ==>
          disk.value.used == point.diskUsed.value && disk.value.total == point.diskTotal.value
          && disk.value.usage == point.diskUsage.value)
  }
}
