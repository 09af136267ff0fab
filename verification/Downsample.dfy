/** Aggregation of series points into clock buckets. */
module Downsample {
  import opened Common
  import opened Series

  // ---------- Clock buckets ----------

  function ClockBucketStart(ts: int, d: int): (r: int)
    ensures d > 0 ==> r <= ts < r + d
  {
    if d <= 0 then ts else ts - ts % d
  }

  /** The bucket a timestamp falls in; a bucket that would start before the floor starts at the floor. */
  function SlotOf(ts: int, d: int, floor: Option<int>): int {
    var start := ClockBucketStart(ts, d);
    if floor.Some? && start < floor.value then floor.value else start
  }

  // ---------- What one bucket sums to ----------

  datatype Tally = Tally(sum: real, n: nat)

  function AddSum(t: Tally, v: Option<real>): Tally {
    if v.None? then t else Tally(t.sum + v.value, t.n + 1)
  }

  function SumResult(t: Tally): Option<real> {
    if t.n == 0 then None else Some(t.sum)
  }

  function AvgResult(t: Tally): Option<real> {
    if t.n == 0 then None else Some(t.sum / t.n as real)
  }

  function FieldResult(f: Field, t: Tally): Option<real> {
    if IsDelta(f) then SumResult(t) else AvgResult(t)
  }

  function TallyOf(points: seq<SeriesPoint>, f: Field): Tally {
    if points == [] then Tally(0.0, 0)
    else AddSum(TallyOf(Init(points), f), Last(points).Value(f))
  }

  /** The running sums of an accumulator. */
  datatype Sums = Sums(
    requests: Tally, http404: Tally, http4xx: Tally, http5xx: Tally,
    heapUsed: Tally, processCpu: Tally, hostCpu: Tally,
    memoryUsed: Tally, memoryTotal: Tally, memoryUsage: Tally,
    diskUsed: Tally, diskTotal: Tally, diskUsage: Tally)
  {
    function At(f: Field): Tally {
      match f
      case Requests => requests
      case Http404 => http404
      case Http4xx => http4xx
      case Http5xx => http5xx
      case HeapUsed => heapUsed
      case ProcessCpu => processCpu
      case HostCpu => hostCpu
      case MemoryUsed => memoryUsed
      case MemoryTotal => memoryTotal
      case MemoryUsage => memoryUsage
      case DiskUsed => diskUsed
      case DiskTotal => diskTotal
      case DiskUsage => diskUsage
    }
  }

  const NO_TALLY := Tally(0.0, 0)

  const NO_SUMS :=
    Sums(NO_TALLY, NO_TALLY, NO_TALLY, NO_TALLY, NO_TALLY, NO_TALLY, NO_TALLY, NO_TALLY, NO_TALLY, NO_TALLY, NO_TALLY,
         NO_TALLY, NO_TALLY)

  function AddSums(s: Sums, point: SeriesPoint): Sums {
    Sums(
      AddSum(s.requests, point.requests),
      AddSum(s.http404, point.http404),
      AddSum(s.http4xx, point.http4xx),
      AddSum(s.http5xx, point.http5xx),
      AddSum(s.heapUsed, point.heapUsed),
      AddSum(s.processCpu, point.processCpu),
      AddSum(s.hostCpu, point.hostCpu),
      AddSum(s.memoryUsed, point.memoryUsed),
      AddSum(s.memoryTotal, point.memoryTotal),
      AddSum(s.memoryUsage, point.memoryUsage),
      AddSum(s.diskUsed, point.diskUsed),
      AddSum(s.diskTotal, point.diskTotal),
      AddSum(s.diskUsage, point.diskUsage))
  }

  function SumsOf(points: seq<SeriesPoint>): Sums {
    if points == [] then NO_SUMS
    else AddSums(SumsOf(Init(points)), Last(points))
  }

  /** Latency and request weights, over points with a latency and a positive request delta. */
  datatype Weights = Weights(weighted: real, requests: real)

  predicate Weighs(point: SeriesPoint) {
    point.latency.Some? && point.requests.Some? && point.requests.value > 0.0
  }

  function AddWeightedLatency(w: Weights, point: SeriesPoint): Weights {
    if !Weighs(point) then w
    else Weights(w.weighted + point.latency.value * point.requests.value, w.requests + point.requests.value)
  }

  function WeightsOf(points: seq<SeriesPoint>): Weights {
    if points == [] then Weights(0.0, 0.0)
    else AddWeightedLatency(WeightsOf(Init(points)), Last(points))
  }

  function WeightedResult(w: Weights): Option<real> {
    if w.requests <= 0.0 then None else Some(w.weighted / w.requests)
  }

  /** Poll and run identity, kept only while every point agrees. */
  datatype Identity = Identity(pollIdCommon: bool, pollId: int, appRunCommon: bool, run: Option<int>)

  function AddIdentity(id: Identity, point: SeriesPoint): Identity {
    var samePoll := id.pollIdCommon && id.pollId == point.pollId;
    var sameRun := id.appRunCommon && id.run == point.run;
    Identity(samePoll, if samePoll then id.pollId else 0, sameRun, if sameRun then id.run else None)
  }

  function IdentityOf(points: seq<SeriesPoint>): Identity
    requires points != []
  {
    var point := Last(points);
    if |points| == 1 then Identity(true, point.pollId, true, point.run)
    else AddIdentity(IdentityOf(Init(points)), point)
  }

  datatype Bucket = Bucket(start: int, members: seq<SeriesPoint>)

  function PointFrom(start: int, id: Identity, s: Sums, w: Weights): SeriesPoint {
    SeriesPoint(
      if id.pollIdCommon then id.pollId else 0,
      start,
      if id.appRunCommon then id.run else None,
      SumResult(s.requests), SumResult(s.http404), SumResult(s.http4xx), SumResult(s.http5xx),
      WeightedResult(w),
      AvgResult(s.heapUsed), AvgResult(s.processCpu), AvgResult(s.hostCpu),
      AvgResult(s.memoryUsed), AvgResult(s.memoryTotal), AvgResult(s.memoryUsage),
      AvgResult(s.diskUsed), AvgResult(s.diskTotal), AvgResult(s.diskUsage),
      false, false, "")
  }

  /** The one point that stands for a bucket. */
  function Collapse(b: Bucket): SeriesPoint
    requires b.members != []
  {
    PointFrom(b.start, IdentityOf(b.members), SumsOf(b.members), WeightsOf(b.members))
  }

  // ---------- Consecutive grouping ----------

  predicate AllFilled(buckets: seq<Bucket>) {
    forall i :: 0 <= i < |buckets| ==> buckets[i].members != []
  }

  /** The slot of every point. */
  function Slots(points: seq<SeriesPoint>, d: int, floor: Option<int>): (r: seq<int>)
    ensures |r| == |points|
    ensures forall i :: 0 <= i < |points| ==> r[i] == SlotOf(points[i].ts, d, floor)
  {
    seq(|points|, i requires 0 <= i < |points| => SlotOf(points[i].ts, d, floor))
  }

  /** Consecutive points of one slot, in order. */
  function Buckets(points: seq<SeriesPoint>, slots: seq<int>): (r: seq<Bucket>)
    requires |points| == |slots|
    ensures AllFilled(r) && |r| <= |points| && (r == [] <==> points == [])
  {
    if points == [] then []
    else
      var n := |points| - 1;
      AddToBuckets(Buckets(points[..n], slots[..n]), slots[n], points[n])
  }

  function AddToBuckets(buckets: seq<Bucket>, slot: int, point: SeriesPoint): (r: seq<Bucket>)
    requires AllFilled(buckets)
    ensures AllFilled(r) && r != [] && |r| <= |buckets| + 1
    ensures Last(r).start == slot
  {
    if buckets == [] || Last(buckets).start != slot then buckets + [Bucket(slot, [point])]
    else
      var last := Last(buckets);
      Init(buckets) + [last.(members := last.members + [point])]
  }

  function CollapseAll(buckets: seq<Bucket>): (r: seq<SeriesPoint>)
    requires AllFilled(buckets)
    ensures |r| == |buckets|
  {
    if buckets == [] then []
    else CollapseAll(Init(buckets)) + [Collapse(Last(buckets))]
  }

  lemma {:induction false} CollapsedAt(buckets: seq<Bucket>, i: nat)
    requires AllFilled(buckets) && i < |buckets|
    ensures CollapseAll(buckets)[i] == Collapse(buckets[i])
  {
    if i < |buckets| - 1 {
      CollapsedAt(Init(buckets), i);
    }
  }

  /** A series in which no bucket holds two points keeps its native points. */
  function Aggregated(series: SeriesData, d: int): SeriesData {
    var buckets := Buckets(series.points, Slots(series.points, d, Some(series.start)));
    if d <= 0 || |series.points| < 2 || |buckets| == |series.points| then series
    else series.(points := CollapseAll(buckets))
  }

  // ---------- The one-pass aggregation ----------

  class BucketAccumulator {
    const start: int
    ghost var members: seq<SeriesPoint>
    var identitySet: bool
    var pollIdCommon: bool
    var appRunCommon: bool
    var pollId: int
    var run: Option<int>
    var sums: Sums
    var latency: Weights

    ghost predicate Valid()
      reads this
    {
      && (identitySet <==> members != [])
      && (identitySet ==> Identity(pollIdCommon, pollId, appRunCommon, run) == IdentityOf(members))
      && sums == SumsOf(members)
      && latency == WeightsOf(members)
    }

    constructor (start: int)
      ensures Valid() && this.start == start && members == []
    {
      this.start := start;
      members := [];
      identitySet, pollIdCommon, appRunCommon := false, false, false;
      pollId, run := 0, None;
      sums := NO_SUMS;
      latency := Weights(0.0, 0.0);
    }

    method Add(point: SeriesPoint)
      requires Valid()
      modifies this
      ensures Valid() && members == old(members) + [point]
    {
      hide IdentityOf, SumsOf, WeightsOf, AddSums, AddWeightedLatency;
      OneMember(members, point);
      if !identitySet {
        identitySet, pollIdCommon, appRunCommon := true, true, true;
        pollId, run := point.pollId, point.run;
      } else {
        IdentityIsKept(members);
        if pollIdCommon && pollId != point.pollId {
          pollIdCommon := false;
          pollId := 0;
        }
        if appRunCommon && run != point.run {
          appRunCommon := false;
          run := None;
        }
      }
      sums := AddSums(sums, point);
      latency := AddWeightedLatency(latency, point);
      members := members + [point];
    }

    method Point() returns (point: SeriesPoint)
      requires Valid() && members != []
      ensures point == Collapse(Bucket(start, members))
    {
      point := PointFrom(start, Identity(pollIdCommon, pollId, appRunCommon, run), sums, latency);
    }
  }

  lemma {:induction false} OneMember(members: seq<SeriesPoint>, point: SeriesPoint)
    ensures IdentityOf(members + [point]) ==
            if members == [] then Identity(true, point.pollId, true, point.run)
            else AddIdentity(IdentityOf(members), point)
    ensures SumsOf(members + [point]) == AddSums(SumsOf(members), point)
    ensures WeightsOf(members + [point]) == AddWeightedLatency(WeightsOf(members), point)
  {
    hide AddIdentity, AddSums, AddWeightedLatency;
    InitOfAppend(members, point);
  }

  /** An identity that is no longer common has been cleared. */
  lemma {:induction false} IdentityIsKept(points: seq<SeriesPoint>)
    requires points != []
    ensures !IdentityOf(points).pollIdCommon ==> IdentityOf(points).pollId == 0
    ensures !IdentityOf(points).appRunCommon ==> IdentityOf(points).run == None
  {
  }

  method AggregateSeries(series: SeriesData, d: int) returns (r: SeriesData)
    ensures r == Aggregated(series, d)
  {
    if d <= 0 || |series.points| < 2 {
      return series;
    }
    var out, merged := CollapseRuns(series.points, d, series.start, Slots(series.points, d, Some(series.start)));
    r := if merged then series.(points := out) else series;
  }

  method CollapseRuns(points: seq<SeriesPoint>, d: int, start: int, ghost slots: seq<int>)
    returns (out: seq<SeriesPoint>, merged: bool)
    requires |slots| == |points|
    requires forall i :: 0 <= i < |points| ==> slots[i] == SlotOf(points[i].ts, d, Some(start))
    ensures out == CollapseAll(Buckets(points, slots))
    ensures merged <==> |Buckets(points, slots)| < |points|
  {
    var acc;
    ghost var buckets;
    acc, out, merged, buckets := ScanRuns(points, d, start, slots);
    out := FlushBucket(out, acc, buckets);
    AllBuckets(points, slots, |points|);
  }

  /** The loop up to the last point, which leaves the last bucket unflushed. */
  method ScanRuns(points: seq<SeriesPoint>, d: int, start: int, ghost slots: seq<int>)
    returns (acc: BucketAccumulator?, out: seq<SeriesPoint>, merged: bool, ghost buckets: seq<Bucket>)
    requires |slots| == |points|
    requires forall i :: 0 <= i < |points| ==> slots[i] == SlotOf(points[i].ts, d, Some(start))
    ensures buckets == Buckets(points[..|points|], slots[..|points|]) && Reached(acc, out, buckets)
    ensures merged <==> |buckets| < |points|
  {
    hide Buckets, Reached, Follows, SlotOf;
    acc, out, merged, buckets := null, [], false, [];
    NothingReached(points, slots);
    var i := 0;
    while i < |points|
      invariant 0 <= i <= |points|
      invariant acc != null ==> fresh(acc)
      invariant buckets == Buckets(points[..i], slots[..i])
      invariant Reached(acc, out, buckets)
      invariant merged <==> |buckets| < i
    {
      var bucketStart := ClampedBucketStart(points[i].ts, d, start);
      ghost var next := NextBuckets(points, slots, i);
      var joined;
      acc, out, joined := Accept(acc, out, bucketStart, points[i], buckets, next);
      merged := merged || joined;
      buckets, i := next, i + 1;
    }
  }

  lemma {:induction false} NothingReached(points: seq<SeriesPoint>, slots: seq<int>)
    requires |points| == |slots|
    ensures Reached(null, [], []) && Buckets(points[..0], slots[..0]) == []
  {
  }

  method ClampedBucketStart(ts: int, d: int, start: int) returns (bucketStart: int)
    ensures bucketStart == SlotOf(ts, d, Some(start))
  {
    bucketStart := ClockBucketStart(ts, d);
    if bucketStart < start {
      bucketStart := start;
    }
  }

  lemma {:induction false} AllBuckets(points: seq<SeriesPoint>, slots: seq<int>, i: nat)
    requires |points| == |slots| == i
    ensures Buckets(points[..i], slots[..i]) == Buckets(points, slots)
  {
    assert points[..i] == points && slots[..i] == slots;
  }

  /** One turn of the loop: a point of another slot flushes the accumulator and starts a new one. */
  method Accept(acc: BucketAccumulator?, out: seq<SeriesPoint>, slot: int, point: SeriesPoint,
                ghost buckets: seq<Bucket>, ghost next: seq<Bucket>)
    returns (acc': BucketAccumulator, out': seq<SeriesPoint>, joined: bool)
    requires Reached(acc, out, buckets) && Follows(buckets, next, slot, point)
    modifies acc
    ensures acc' == acc || fresh(acc')
    ensures Reached(acc', out', next) && joined == (|next| == |buckets|)
  {
    out', joined := out, false;
    if acc == null || acc.start != slot {
      out' := FlushBucket(out, acc, buckets);
      acc' := new BucketAccumulator(slot);
    } else {
      acc', joined := acc, true;
    }
    acc'.Add(point);
  }

  /** All buckets but the last are flushed and the accumulator holds the last. */
  ghost predicate Reached(acc: BucketAccumulator?, out: seq<SeriesPoint>, buckets: seq<Bucket>)
    reads acc
  {
    && AllFilled(buckets)
    && (acc == null <==> buckets == [])
    && (acc != null ==> Holds(acc, buckets))
    && out == CollapseAll(Settled(buckets))
  }

  function Settled(buckets: seq<Bucket>): (r: seq<Bucket>)
    requires AllFilled(buckets)
    ensures AllFilled(r)
  {
    if buckets == [] then [] else Init(buckets)
  }

  /** `next` is `buckets` with one more point: in a new bucket, or in the last one if the slot is the same. */
  ghost predicate Follows(buckets: seq<Bucket>, next: seq<Bucket>, slot: int, point: SeriesPoint)
  {
    && AllFilled(buckets) && AllFilled(next) && next != []
    && if buckets == [] || Last(buckets).start != slot then
      Settled(next) == buckets && |next| == |buckets| + 1 && Last(next) == Bucket(slot, [point])
    else
      && Settled(next) == Settled(buckets) && |next| == |buckets|
      && Last(next) == Bucket(slot, Last(buckets).members + [point])
  }

  lemma {:induction false} AddFollows(buckets: seq<Bucket>, slot: int, point: SeriesPoint)
    requires AllFilled(buckets)
    ensures Follows(buckets, AddToBuckets(buckets, slot, point), slot, point)
  {
  }

  lemma {:induction false} NextBuckets(points: seq<SeriesPoint>, slots: seq<int>, i: nat) returns (next: seq<Bucket>)
    requires |points| == |slots| && i < |points|
    ensures next == Buckets(points[..i + 1], slots[..i + 1])
    ensures Follows(Buckets(points[..i], slots[..i]), next, slots[i], points[i])
  {
    next := Buckets(points[..i + 1], slots[..i + 1]);
    assert points[..i + 1][..i] == points[..i] && slots[..i + 1][..i] == slots[..i];
    AddFollows(Buckets(points[..i], slots[..i]), slots[i], points[i]);
  }

  /** An accumulator holds the last bucket so far. */
  ghost predicate Holds(acc: BucketAccumulator, buckets: seq<Bucket>)
    reads acc
  {
    acc.Valid() && buckets != [] && Bucket(acc.start, acc.members) == Last(buckets)
  }

  method FlushBucket(out: seq<SeriesPoint>, acc: BucketAccumulator?, ghost buckets: seq<Bucket>)
    returns (r: seq<SeriesPoint>)
    requires Reached(acc, out, buckets)
    ensures r == CollapseAll(buckets)
  {
    r := out;
    if acc != null {
      var point := acc.Point();
      r := r + [point];
    }
  }
}
