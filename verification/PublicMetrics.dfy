/** Public metric slots: one-minute groups of usable points with paired error coverage. */
module PublicMetrics {
  import opened Common
  import opened Series
  import opened Downsample
  import opened Dashboard

  datatype PublicPoint = PublicPoint(
    ts: int,
    requests: Option<real>,
    http4xx: Option<real>,
    http5xx: Option<real>,
    http5xxRate: Option<real>,
    latency: Option<real>,
    latencyRequests: Option<real>,
    processCpu: Option<real>,
    runtimeMemory: Option<real>,
    hostCpu: Option<real>,
    hostMemory: Option<real>,
    hostDisk: Option<real>)

  datatype PublicSeries = PublicSeries(points: seq<PublicPoint>, latestHttpObservationAt: Option<int>)

  // ---------- Points ----------

  predicate Paired4(point: SeriesPoint) {
    point.requests.Some? && point.paired4xx && point.http4xx.Some?
  }

  predicate Paired5(point: SeriesPoint) {
    point.requests.Some? && point.paired5xx && point.http5xx.Some?
  }

  predicate Usable(point: SeriesPoint) {
    || point.requests.Some? || point.latency.Some? || point.heapUsed.Some? || point.processCpu.Some?
    || point.hostCpu.Some? || point.memoryUsage.Some? || point.diskUsage.Some?
  }

  predicate ObservesHttp(point: SeriesPoint) {
    point.requests.Some? || point.latency.Some? || Paired4(point) || Paired5(point)
  }

  function UsablePoints(points: seq<SeriesPoint>): seq<SeriesPoint> {
    if points == [] then []
    else if Usable(Last(points)) then UsablePoints(Init(points)) + [Last(points)]
    else UsablePoints(Init(points))
  }

  function LatestHttp(points: seq<SeriesPoint>): Option<int> {
    if points == [] then None
    else if Usable(Last(points)) && ObservesHttp(Last(points)) then Some(Last(points).ts)
    else LatestHttp(Init(points))
  }

  // ---------- Slots ----------

  /** Request intervals of a slot and how many of them have error counts over the same baseline. */
  datatype Pairing = Pairing(intervals: nat, paired4: nat, paired5: nat, sum4: real, sum5: real)

  const NO_PAIRING := Pairing(0, 0, 0, 0.0, 0.0)

  function AddPairing(g: Pairing, point: SeriesPoint): Pairing {
    if point.requests.None? then g
    else
      Pairing(
        g.intervals + 1,
        if Paired4(point) then g.paired4 + 1 else g.paired4,
        if Paired5(point) then g.paired5 + 1 else g.paired5,
        if Paired4(point) then g.sum4 + point.http4xx.value else g.sum4,
        if Paired5(point) then g.sum5 + point.http5xx.value else g.sum5)
  }

  function PairingOf(points: seq<SeriesPoint>): Pairing {
    if points == [] then NO_PAIRING else AddPairing(PairingOf(Init(points)), Last(points))
  }

  function RateOf(errors: Option<real>, requests: Option<real>): Option<real> {
    if errors.Some? && requests.Some? && requests.value > 0.0 then Some(errors.value / requests.value) else None
  }

  function PublicFrom(point: SeriesPoint, w: Weights, g: Pairing): PublicPoint {
    var http5xx := if g.intervals > 0 && g.paired5 == g.intervals then Some(g.sum5) else None;
    PublicPoint(
      point.ts,
      point.requests,
      if g.intervals > 0 && g.paired4 == g.intervals then Some(g.sum4) else None,
      http5xx,
      RateOf(http5xx, point.requests),
      point.latency,
      if w.requests > 0.0 then Some(w.requests) else None,
      point.processCpu, point.heapUsed, point.hostCpu, point.memoryUsage, point.diskUsage)
  }

  /** The public point of one slot. */
  function PublicOf(b: Bucket): PublicPoint
    requires b.members != []
  {
    PublicFrom(Collapse(b), WeightsOf(b.members), PairingOf(b.members))
  }

  function PublicAll(buckets: seq<Bucket>): (r: seq<PublicPoint>)
    requires AllFilled(buckets)
    ensures |r| == |buckets|
  {
    if buckets == [] then [] else PublicAll(Init(buckets)) + [PublicOf(Last(buckets))]
  }

  function MinuteBuckets(points: seq<SeriesPoint>): (r: seq<Bucket>)
    ensures AllFilled(r)
  {
    Buckets(UsablePoints(points), Slots(UsablePoints(points), MINUTE, None))
  }

  function Grouped(points: seq<SeriesPoint>): PublicSeries {
    PublicSeries(PublicAll(MinuteBuckets(points)), LatestHttp(points))
  }

  // ---------- The one-pass grouping ----------

  /** The open slot: the accumulator and the pairing counters that are reset with it. */
  class SlotState {
    var acc: BucketAccumulator?
    var pairing: Pairing
    var out: seq<PublicPoint>

    constructor ()
      ensures acc == null && out == [] && pairing == NO_PAIRING
    {
      acc, pairing, out := null, NO_PAIRING, [];
    }

    ghost predicate Reached(buckets: seq<Bucket>)
      reads this, acc
    {
      && AllFilled(buckets)
      && (acc == null <==> buckets == [])
      && (acc != null ==> Holds(acc, buckets) && pairing == PairingOf(Last(buckets).members))
      && out == PublicAll(Settled(buckets))
    }

    method Flush(ghost buckets: seq<Bucket>)
      requires Reached(buckets)
      modifies this`out
      ensures out == PublicAll(buckets)
    {
      if acc != null {
        var point := acc.Point();
        out := out + [PublicFrom(point, acc.latency, pairing)];
      }
    }

    method Add(slot: int, point: SeriesPoint, ghost buckets: seq<Bucket>, ghost next: seq<Bucket>)
      requires Reached(buckets) && Follows(buckets, next, slot, point)
      modifies this, acc
      ensures Reached(next) && acc != null && (acc == old(acc) || fresh(acc))
    {
      hide AddPairing, PublicOf;
      if acc == null || acc.start != slot {
        Flush(buckets);
        acc := new BucketAccumulator(slot);
        pairing := NO_PAIRING;
      }
      PairingAppend(acc.members, point);
      acc.Add(point);
      pairing := AddPairing(pairing, point);
    }
  }

  lemma {:induction false} PairingAppend(members: seq<SeriesPoint>, point: SeriesPoint)
    ensures PairingOf(members + [point]) == AddPairing(PairingOf(members), point)
  {
    hide AddPairing;
    InitOfAppend(members, point);
  }

  lemma {:induction false} NextMinuteBuckets(points: seq<SeriesPoint>, i: nat)
    requires i < |points|
    ensures
      if Usable(points[i]) then
        Follows(MinuteBuckets(points[..i]), MinuteBuckets(points[..i + 1]), ClockBucketStart(points[i].ts, MINUTE),
                points[i])
      else
        MinuteBuckets(points[..i + 1]) == MinuteBuckets(points[..i])
    ensures LatestHttp(points[..i + 1]) ==
            if Usable(points[i]) && ObservesHttp(points[i]) then Some(points[i].ts) else LatestHttp(points[..i])
  {
    hide ClockBucketStart, Follows, Usable, ObservesHttp;
    InitOfPrefix(points, i);
    if Usable(points[i]) {
      MinuteSlots(UsablePoints(points[..i]), points[i]);
      UsableFollows(UsablePoints(points[..i]), Slots(UsablePoints(points[..i]), MINUTE, None), points[i],
                    SlotOf(points[i].ts, MINUTE, None));
    }
  }

  lemma {:induction false} MinuteSlots(points: seq<SeriesPoint>, point: SeriesPoint)
    ensures Slots(points + [point], MINUTE, None) == Slots(points, MINUTE, None) + [SlotOf(point.ts, MINUTE, None)]
    ensures SlotOf(point.ts, MINUTE, None) == ClockBucketStart(point.ts, MINUTE)
  {
    hide ClockBucketStart;
    var all := Slots(points + [point], MINUTE, None);
    forall j | 0 <= j < |all|
      ensures all[j] == (Slots(points, MINUTE, None) + [SlotOf(point.ts, MINUTE, None)])[j]
    {}
  }

  lemma {:induction false} UsableFollows(points: seq<SeriesPoint>, slots: seq<int>, point: SeriesPoint, slot: int)
    requires |points| == |slots|
    ensures Follows(Buckets(points, slots), Buckets(points + [point], slots + [slot]), slot, point)
  {
    hide Follows;
    InitOfAppend(points, point);
    InitOfAppend(slots, slot);
    AddFollows(Buckets(points, slots), slot, point);
  }

  method GroupPublicMetrics(series: SeriesData) returns (r: PublicSeries)
    ensures r == Grouped(series.points)
  {
    hide Usable, ObservesHttp, Follows, ClockBucketStart, MinuteBuckets, LatestHttp;
    var points := series.points;
    var state := new SlotState();
    var latest: Option<int> := None;
    NoMinuteBuckets(points);
    var i := 0;
    while i < |points|
      invariant 0 <= i <= |points|
      invariant fresh(state) && (state.acc != null ==> fresh(state.acc))
      invariant state.Reached(MinuteBuckets(points[..i]))
      invariant latest == LatestHttp(points[..i])
    {
      var point := points[i];
      NextMinuteBuckets(points, i);
      if Usable(point) {
        if ObservesHttp(point) {
          latest := Some(point.ts);
        }
        state.Add(ClockBucketStart(point.ts, MINUTE), point, MinuteBuckets(points[..i]),
                  MinuteBuckets(points[..i + 1]));
      }
      i := i + 1;
    }
    WholePrefix(points);
    state.Flush(MinuteBuckets(points));
    r := PublicSeries(state.out, latest);
  }

  lemma {:induction false} NoMinuteBuckets(points: seq<SeriesPoint>)
    ensures MinuteBuckets(points[..0]) == [] && LatestHttp(points[..0]) == None
  {
  }
}
