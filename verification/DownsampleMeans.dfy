/** What an aggregated point shows, told from the points of its bucket field by field. */
module DownsampleMeans {
  import opened Common
  import opened Averages
  import opened Series
  import opened Downsample
  import opened DownsampleLaws
  import SamplingTheorem

  /** The requests and the request time of the points that have a latency over some requests. */
  function BusyRequests(ps: seq<SeriesPoint>): seq<real> {
    Given(ps, (p: SeriesPoint) =>
        if p.latency.Some? && p.requests.Some? && p.requests.value > 0.0 then p.requests else None)
  }

  function BusyTime(ps: seq<SeriesPoint>): seq<real> {
    Given(ps, (p: SeriesPoint) =>
        if p.latency.Some? && p.requests.Some? && p.requests.value > 0.0
        then Some(p.latency.value * p.requests.value) else None)
  }

  /** Counters are added up, gauges averaged over the points that have them, latencies weighted by their requests. */
  ghost predicate Summarizes(out: SeriesPoint, ps: seq<SeriesPoint>) {
    && SumsUp(out, ps) && RuntimeMeans(out, ps) && HostMeans(out, ps)
    && (out.latency.Some? <==> BusyRequests(ps) != [])
    && (out.latency.Some? ==> out.latency.value * Sum(BusyRequests(ps)) == Sum(BusyTime(ps)))
  }

  ghost predicate SumsUp(out: SeriesPoint, ps: seq<SeriesPoint>) {
    && IsSum(out.requests, Given(ps, (p: SeriesPoint) => p.requests))
    && IsSum(out.http404, Given(ps, (p: SeriesPoint) => p.http404))
    && IsSum(out.http4xx, Given(ps, (p: SeriesPoint) => p.http4xx))
    && IsSum(out.http5xx, Given(ps, (p: SeriesPoint) => p.http5xx))
  }

  ghost predicate RuntimeMeans(out: SeriesPoint, ps: seq<SeriesPoint>) {
    && IsMean(out.heapUsed, Given(ps, (p: SeriesPoint) => p.heapUsed))
    && IsMean(out.processCpu, Given(ps, (p: SeriesPoint) => p.processCpu))
    && IsMean(out.hostCpu, Given(ps, (p: SeriesPoint) => p.hostCpu))
  }

  ghost predicate HostMeans(out: SeriesPoint, ps: seq<SeriesPoint>) {
    && IsMean(out.memoryUsed, Given(ps, (p: SeriesPoint) => p.memoryUsed))
    && IsMean(out.memoryTotal, Given(ps, (p: SeriesPoint) => p.memoryTotal))
    && IsMean(out.memoryUsage, Given(ps, (p: SeriesPoint) => p.memoryUsage))
    && IsMean(out.diskUsed, Given(ps, (p: SeriesPoint) => p.diskUsed))
    && IsMean(out.diskTotal, Given(ps, (p: SeriesPoint) => p.diskTotal))
    && IsMean(out.diskUsage, Given(ps, (p: SeriesPoint) => p.diskUsage))
  }

  // ---------- One bucket ----------

  lemma {:induction false} TallyIsGiven(ps: seq<SeriesPoint>, f: Field, value: SeriesPoint -> Option<real>)
    requires forall p :: value(p) == p.Value(f)
    ensures TallyOf(ps, f) == Tally(Sum(Given(ps, value)), |Given(ps, value)|)
  {
    if ps != [] {
      TallyIsGiven(Init(ps), f, value);
      var given := Given(Init(ps), value);
      if value(Last(ps)).Some? {
        SumNext(given, value(Last(ps)).value);
      } else {
        assert given + [] == given;
      }
    }
  }

  /** A field of a collapsed point: the sum if it is a counter, else the mean, of what the members show of it. */
  lemma {:induction false} FieldMeans(b: Bucket, f: Field, value: SeriesPoint -> Option<real>)
    requires b.members != [] && forall p :: value(p) == p.Value(f)
    ensures IsDelta(f) ==> IsSum(Collapse(b).Value(f), Given(b.members, value))
    ensures !IsDelta(f) ==> IsMean(Collapse(b).Value(f), Given(b.members, value))
  {
    hide TallyOf, Collapse, FieldResult, Sum, Given, IsSum, IsMean;
    CollapseStandsFor(b);
    TallyIsGiven(b.members, f, value);
    assert Collapse(b).Value(f) == FieldResult(f, TallyOf(b.members, f));
    ResultMeans(f, Given(b.members, value));
  }

  lemma {:induction false} ResultMeans(f: Field, vs: seq<real>)
    ensures
      var out := FieldResult(f, Tally(Sum(vs), |vs|));
      if IsDelta(f) then IsSum(out, vs) else IsMean(out, vs)
  {
    hide Sum;
    if |vs| > 0 {
      Quotient(Sum(vs), |vs| as real);
    }
  }

  lemma {:induction false} Quotient(x: real, y: real)
    requires y > 0.0
    ensures x / y * y == x
  {
  }

  lemma {:induction false} CountersSumUp(b: Bucket)
    requires b.members != []
    ensures SumsUp(Collapse(b), b.members)
  {
    hide Collapse, Given, IsSum;
    FieldMeans(b, Requests, (p: SeriesPoint) => p.requests);
    FieldMeans(b, Http404, (p: SeriesPoint) => p.http404);
    FieldMeans(b, Http4xx, (p: SeriesPoint) => p.http4xx);
    FieldMeans(b, Http5xx, (p: SeriesPoint) => p.http5xx);
  }

  lemma {:induction false} RuntimeAverages(b: Bucket)
    requires b.members != []
    ensures RuntimeMeans(Collapse(b), b.members)
  {
    hide Collapse, Given, IsMean;
    FieldMeans(b, HeapUsed, (p: SeriesPoint) => p.heapUsed);
    FieldMeans(b, ProcessCpu, (p: SeriesPoint) => p.processCpu);
    FieldMeans(b, HostCpu, (p: SeriesPoint) => p.hostCpu);
  }

  lemma {:induction false} HostAverages(b: Bucket)
    requires b.members != []
    ensures HostMeans(Collapse(b), b.members)
  {
    hide Collapse, Given, IsMean;
    FieldMeans(b, MemoryUsed, (p: SeriesPoint) => p.memoryUsed);
    FieldMeans(b, MemoryTotal, (p: SeriesPoint) => p.memoryTotal);
    FieldMeans(b, MemoryUsage, (p: SeriesPoint) => p.memoryUsage);
    FieldMeans(b, DiskUsed, (p: SeriesPoint) => p.diskUsed);
    FieldMeans(b, DiskTotal, (p: SeriesPoint) => p.diskTotal);
    FieldMeans(b, DiskUsage, (p: SeriesPoint) => p.diskUsage);
  }

  lemma {:induction false} WeightsAreBusy(ps: seq<SeriesPoint>)
    ensures WeightsOf(ps) == Weights(Sum(BusyTime(ps)), Sum(BusyRequests(ps)))
    ensures Sum(BusyRequests(ps)) > 0.0 <==> BusyRequests(ps) != []
    ensures Sum(BusyRequests(ps)) >= 0.0
  {
    hide BusyTime, BusyRequests, AddWeightedLatency;
    NothingBusy(ps);
    if ps != [] {
      var init, p := Init(ps), Last(ps);
      WeightsAreBusy(init);
      BusyNext(ps);
      if p.latency.Some? && p.requests.Some? && p.requests.value > 0.0 {
        SumNext(BusyRequests(init), p.requests.value);
        SumNext(BusyTime(init), p.latency.value * p.requests.value);
      }
      AddsBusy(WeightsOf(init), p);
    }
  }

  lemma {:induction false} AddsBusy(w: Weights, p: SeriesPoint)
    ensures AddWeightedLatency(w, p) ==
            if p.latency.Some? && p.requests.Some? && p.requests.value > 0.0
            then Weights(w.weighted + p.latency.value * p.requests.value, w.requests + p.requests.value) else w
  {
  }

  lemma {:induction false} NothingBusy(ps: seq<SeriesPoint>)
    ensures ps == [] ==> BusyRequests(ps) == [] && BusyTime(ps) == []
  {
  }

  lemma {:induction false} BusyNext(ps: seq<SeriesPoint>)
    requires ps != []
    ensures
      var init, p := Init(ps), Last(ps);
      if p.latency.Some? && p.requests.Some? && p.requests.value > 0.0 then
        && BusyRequests(ps) == BusyRequests(init) + [p.requests.value]
        && BusyTime(ps) == BusyTime(init) + [p.latency.value * p.requests.value]
      else BusyRequests(ps) == BusyRequests(init) && BusyTime(ps) == BusyTime(init)
  {
  }

  lemma {:induction false} LatencyIsWeighted(b: Bucket)
    requires b.members != []
    ensures Collapse(b).latency.Some? <==> BusyRequests(b.members) != []
    ensures Collapse(b).latency.Some? ==>
              Collapse(b).latency.value * Sum(BusyRequests(b.members)) == Sum(BusyTime(b.members))
  {
    hide BusyRequests, BusyTime, WeightsOf, SumsOf, IdentityOf;
    WeightsAreBusy(b.members);
  }

  lemma {:induction false} CollapseSummarizes(b: Bucket)
    requires b.members != []
    ensures Summarizes(Collapse(b), b.members) && Collapse(b).ts == b.start
  {
    hide SumsUp, RuntimeMeans, HostMeans, BusyRequests, BusyTime, WeightsOf, SumsOf, IdentityOf;
    CountersSumUp(b);
    RuntimeAverages(b);
    HostAverages(b);
    LatencyIsWeighted(b);
  }

  // ---------- The aggregated series ----------

  /** The start of the bucket of a time; a bucket does not start before the series. */
  function BucketStart(ts: int, d: int, start: int): int
    requires d > 0
  {
    if d * (ts / d) < start then start else d * (ts / d)
  }

  function StartsOf(ps: seq<SeriesPoint>, d: int, start: int): (r: seq<int>)
    requires d > 0
    ensures |r| == |ps| && forall i :: 0 <= i < |ps| ==> r[i] == BucketStart(ps[i].ts, d, start)
  {
    seq(|ps|, i requires 0 <= i < |ps| => BucketStart(ps[i].ts, d, start))
  }

  lemma {:induction false} StartsAreSlots(ps: seq<SeriesPoint>, d: int, start: int)
    requires d > 0
    ensures Slots(ps, d, Some(start)) == StartsOf(ps, d, start)
  {
    forall i | 0 <= i < |ps| ensures SlotOf(ps[i].ts, d, Some(start)) == BucketStart(ps[i].ts, d, start) {
      ClockBucketIsMultiple(ps[i].ts, d);
    }
  }

  ghost predicate HasPointAt(ps: seq<SeriesPoint>, ts: int) {
    exists j :: 0 <= j < |ps| && ps[j].ts == ts
  }

  /** Time-sorted points are aggregated exactly if two of them fall in one bucket. There is then one point for each
      bucket that holds any, in order, and it summarizes the points of its bucket. */
  lemma {:induction false} AggregateSummarizes(series: SeriesData, d: int)
    requires d > 0 && TimeSorted(series.points)
    ensures
      var raw, out := series.points, Aggregated(series, d).points;
      var starts := StartsOf(raw, d, series.start);
      if forall i, j :: 0 <= i < j < |raw| ==> starts[i] != starts[j] then Aggregated(series, d) == series
      else
        && (forall i, j :: 0 <= i < j < |out| ==> out[i].ts < out[j].ts)
        && (forall i :: 0 <= i < |raw| ==> HasPointAt(out, starts[i]))
        && (forall j :: 0 <= j < |out| ==> out[j].ts in starts && Summarizes(out[j], InSlot(raw, starts, out[j].ts)))
  {
    hide Summarizes, Buckets, InSlot, CollapseAll, BucketStart, Slots, StartsOf, NonDecreasing, TimeSorted, Aggregated,
         HasPointAt;
    var raw, starts := series.points, StartsOf(series.points, d, series.start);
    StartsAreSlots(raw, d, series.start);
    SortedPointsHaveSortedSlots(raw, d, Some(series.start));
    AggregatedMeans(series, d, starts);
    SamplingTheorem.LoneBucketsStrict(raw, starts);
    StrictMeansApart(starts);
    if exists i, j :: 0 <= i < j < |raw| && starts[i] == starts[j] {
      BucketsSummarize(raw, starts);
    }
  }

  lemma {:induction false} AggregatedMeans(series: SeriesData, d: int, starts: seq<int>)
    requires d > 0 && starts == Slots(series.points, d, Some(series.start))
    ensures
      var buckets := Buckets(series.points, starts);
      if |buckets| == |series.points| then Aggregated(series, d) == series
      else Aggregated(series, d).points == CollapseAll(buckets)
  {
    hide Buckets, CollapseAll, SlotOf;
  }

  lemma {:induction false} StrictMeansApart(slots: seq<int>)
    requires NonDecreasing(slots)
    ensures SamplingTheorem.Strict(slots) <==> forall i, j :: 0 <= i < j < |slots| ==> slots[i] != slots[j]
  {
  }

  lemma {:induction false} BucketsSummarize(raw: seq<SeriesPoint>, starts: seq<int>)
    requires |raw| == |starts| && NonDecreasing(starts)
    ensures
      var out := CollapseAll(Buckets(raw, starts));
      && (forall i, j :: 0 <= i < j < |out| ==> out[i].ts < out[j].ts)
      && (forall i :: 0 <= i < |raw| ==> HasPointAt(out, starts[i]))
      && (forall j :: 0 <= j < |out| ==> out[j].ts in starts && Summarizes(out[j], InSlot(raw, starts, out[j].ts)))
  {
    hide Summarizes, Collapse, Buckets, InSlot, CollapseAll;
    var buckets := Buckets(raw, starts);
    var out := CollapseAll(buckets);
    OnePassIsGroupBy(raw, starts);
    forall j | 0 <= j < |out|
      ensures out[j].ts == buckets[j].start && Summarizes(out[j], InSlot(raw, starts, out[j].ts))
    {
      CollapsedAt(buckets, j);
      CollapseSummarizes(buckets[j]);
    }
    forall i | 0 <= i < |raw| ensures HasPointAt(out, starts[i]) {
      assert HasSlot(buckets, starts[i]);
      var j :| 0 <= j < |buckets| && buckets[j].start == starts[i];
      assert out[j].ts == starts[i];
    }
  }
}
