/** What aggregation means: group-by-bucket, conservation, bounds, idempotence. */
module DownsampleLaws {
  import opened Common
  import opened Series
  import opened Downsample

  ghost predicate TimeSorted(points: seq<SeriesPoint>) {
    forall i, j :: 0 <= i < j < |points| ==> points[i].ts <= points[j].ts
  }

  /** All points of one slot, wherever they stand. */
  function InSlot(points: seq<SeriesPoint>, slots: seq<int>, slot: int): seq<SeriesPoint>
    requires |points| == |slots|
  {
    if points == [] then []
    else
      var n := |points| - 1;
      InSlot(points[..n], slots[..n], slot) + if slots[n] == slot then [points[n]] else []
  }

  // ---------- Slots ----------

  lemma {:induction false} ClockBucketIsMultiple(ts: int, d: int)
    requires d > 0
    ensures ClockBucketStart(ts, d) == d * (ts / d)
  {
  }

  /** The bucket starts at the only multiple of its length whose bucket contains the timestamp. */
  lemma {:induction false} ClockBucketContains(ts: int, d: int, n: int)
    requires d > 0
    ensures ClockBucketStart(ts, d) == d * n <==> d * n <= ts < d * n + d
  {
    var x := ts / d;
    BucketContains(ts, d, n, x);
    ClockBucketIsMultiple(ts, d);
  }

  lemma {:induction false} BucketContains(ts: int, d: int, n: int, x: int)
    requires d > 0 && d * x <= ts < d * x + d
    ensures d * x == d * n <==> d * n <= ts < d * n + d
  {
    if n < x {
      FartherBucket(d, n, x);
    } else if x < n {
      FartherBucket(d, x, n);
    }
  }

  lemma {:induction false} FartherBucket(d: int, a: int, b: int)
    requires d > 0 && a < b
    ensures d * a + d <= d * b
    decreases b - a
  {
    if a + 1 < b {
      FartherBucket(d, a, b - 1);
    }
    assert d * b == d * (b - 1) + d;
  }

  lemma {:induction false} ClockBucketMonotone(a: int, b: int, d: int)
    requires a <= b
    ensures ClockBucketStart(a, d) <= ClockBucketStart(b, d)
  {
    if d > 0 {
      ClockBucketIsMultiple(a, d);
      ClockBucketIsMultiple(b, d);
      if b / d < a / d {
        FartherBucket(d, b / d, a / d);
      }
    }
  }

  lemma {:induction false} ClockBucketFixed(ts: int, d: int)
    ensures ClockBucketStart(ClockBucketStart(ts, d), d) == ClockBucketStart(ts, d)
  {
    if d > 0 {
      ClockBucketIsMultiple(ts, d);
      ClockBucketContains(ClockBucketStart(ts, d), d, ts / d);
    }
  }

  lemma {:induction false} SlotMonotone(a: int, b: int, d: int, floor: Option<int>)
    requires a <= b
    ensures SlotOf(a, d, floor) <= SlotOf(b, d, floor)
  {
    ClockBucketMonotone(a, b, d);
  }

  lemma {:induction false} SlotFixed(ts: int, d: int, floor: Option<int>)
    ensures SlotOf(SlotOf(ts, d, floor), d, floor) == SlotOf(ts, d, floor)
  {
    ClockBucketFixed(ts, d);
    if floor.Some? && d > 0 {
      assert ClockBucketStart(floor.value, d) <= floor.value;
    }
  }

  // ---------- Group-by ----------

  ghost predicate NonDecreasing(slots: seq<int>) {
    forall i, j :: 0 <= i < j < |slots| ==> slots[i] <= slots[j]
  }

  lemma {:induction false} SortedPointsHaveSortedSlots(points: seq<SeriesPoint>, d: int, floor: Option<int>)
    requires TimeSorted(points)
    ensures NonDecreasing(Slots(points, d, floor))
  {
    var slots := Slots(points, d, floor);
    forall i, j | 0 <= i < j < |slots| ensures slots[i] <= slots[j] {
      SlotMonotone(points[i].ts, points[j].ts, d, floor);
    }
  }

  ghost predicate Increasing(buckets: seq<Bucket>) {
    forall i, j :: 0 <= i < j < |buckets| ==> buckets[i].start < buckets[j].start
  }

  ghost predicate Complete(buckets: seq<Bucket>, points: seq<SeriesPoint>, slots: seq<int>)
    requires |points| == |slots|
  {
    forall j :: 0 <= j < |buckets| ==> buckets[j].members == InSlot(points, slots, buckets[j].start)
  }

  ghost predicate Covers(buckets: seq<Bucket>, slots: seq<int>) {
    && (forall i :: 0 <= i < |slots| ==> HasSlot(buckets, slots[i]))
    && (forall j :: 0 <= j < |buckets| ==> buckets[j].start in slots)
  }

  ghost predicate HasSlot(buckets: seq<Bucket>, slot: int) {
    exists j :: 0 <= j < |buckets| && buckets[j].start == slot
  }

  lemma {:induction false} EmptySlot(points: seq<SeriesPoint>, slots: seq<int>, slot: int)
    requires |points| == |slots| && slot !in slots
    ensures InSlot(points, slots, slot) == []
  {
    if points != [] {
      var n := |points| - 1;
      assert slots[n] in slots;
      EmptySlot(points[..n], slots[..n], slot);
    }
  }

  lemma {:induction false} SlotAppend(points: seq<SeriesPoint>, slots: seq<int>, p: SeriesPoint, s: int, slot: int)
    requires |points| == |slots|
    ensures InSlot(points + [p], slots + [s], slot) ==
            if s == slot then InSlot(points, slots, slot) + [p] else InSlot(points, slots, slot)
  {
    assert (points + [p])[..|points|] == points && (slots + [s])[..|points|] == slots;
  }

  /** On time-sorted points the one-pass buckets are the group-by buckets: one per occupied slot, in order, holding
      every point of its slot. */
  lemma {:induction false} OnePassIsGroupBy(points: seq<SeriesPoint>, slots: seq<int>)
    requires |points| == |slots| && NonDecreasing(slots)
    ensures Increasing(Buckets(points, slots))
    ensures Complete(Buckets(points, slots), points, slots)
    ensures Covers(Buckets(points, slots), slots)
  {
    hide Increasing, Complete, Covers, Follows, AddToBuckets;
    if points == [] {
      NoGroups(points, slots);
    } else {
      var n := |points| - 1;
      OnePassIsGroupBy(points[..n], slots[..n]);
      var buckets := Buckets(points[..n], slots[..n]);
      AddFollows(buckets, slots[n], points[n]);
      assert points == points[..n] + [points[n]] && slots == slots[..n] + [slots[n]];
      OneMoreGroups(buckets, Buckets(points, slots), points[..n], slots[..n], points[n], slots[n]);
    }
  }

  lemma {:induction false} NoGroups(points: seq<SeriesPoint>, slots: seq<int>)
    requires points == [] && slots == []
    ensures Increasing([]) && Complete([], points, slots) && Covers([], slots)
  {
  }

  lemma {:induction false} FollowsFrame(buckets: seq<Bucket>, next: seq<Bucket>, slot: int, p: SeriesPoint)
    requires Follows(buckets, next, slot, p)
    ensures |buckets| <= |next| <= |buckets| + 1 && next[|next| - 1].start == slot
    ensures forall j :: 0 <= j < |next| - 1 ==> next[j] == buckets[j]
    ensures forall j :: 0 <= j < |buckets| ==> next[j].start == buckets[j].start
    ensures |next| == |buckets| + 1 ==> next[|buckets|].members == [p]
    ensures |next| == |buckets| ==> next[|next| - 1].members == buckets[|next| - 1].members + [p]
    ensures |next| == |buckets| + 1 && buckets != [] ==> buckets[|buckets| - 1].start != slot
  {
    assert forall j :: 0 <= j < |next| - 1 ==> next[j] == Settled(next)[j];
  }

  lemma {:induction false} OneMoreGroups(buckets: seq<Bucket>, next: seq<Bucket>, points: seq<SeriesPoint>,
                                         slots: seq<int>, p: SeriesPoint, slot: int)
    requires |points| == |slots|
    requires Increasing(buckets) && Complete(buckets, points, slots) && Covers(buckets, slots)
    requires Follows(buckets, next, slot, p)
    requires forall s :: s in slots ==> s <= slot
    ensures Increasing(next) && Complete(next, points + [p], slots + [slot]) && Covers(next, slots + [slot])
  {
    FollowsFrame(buckets, next, slot, p);
    OneMoreIncreases(buckets, next, slots, slot);
    OneMoreCovers(buckets, next, slots, slot);
    forall j | 0 <= j < |next| ensures next[j].members == InSlot(points + [p], slots + [slot], next[j].start) {
      SlotAppend(points, slots, p, slot, next[j].start);
      if j == |next| - 1 && |next| == |buckets| + 1 {
        FreshSlot(buckets, slots, slot);
        EmptySlot(points, slots, slot);
      }
    }
  }

  lemma {:induction false} OneMoreIncreases(buckets: seq<Bucket>, next: seq<Bucket>, slots: seq<int>, slot: int)
    requires Increasing(buckets) && Covers(buckets, slots)
    requires |buckets| <= |next| <= |buckets| + 1 && next != [] && next[|next| - 1].start == slot
    requires forall j :: 0 <= j < |buckets| ==> next[j].start == buckets[j].start
    requires |next| == |buckets| + 1 && buckets != [] ==> buckets[|buckets| - 1].start != slot
    requires forall s :: s in slots ==> s <= slot
    ensures Increasing(next)
  {
    if |next| == |buckets| + 1 && buckets != [] {
      assert buckets[|buckets| - 1].start in slots;
    }
  }

  lemma {:induction false} OneMoreCovers(buckets: seq<Bucket>, next: seq<Bucket>, slots: seq<int>, slot: int)
    requires Covers(buckets, slots)
    requires |buckets| <= |next| <= |buckets| + 1 && next != [] && next[|next| - 1].start == slot
    requires forall j :: 0 <= j < |buckets| ==> next[j].start == buckets[j].start
    ensures Covers(next, slots + [slot])
  {
    forall i | 0 <= i < |slots + [slot]| ensures HasSlot(next, (slots + [slot])[i]) {
      if i < |slots| {
        assert HasSlot(buckets, slots[i]);
        var j :| 0 <= j < |buckets| && buckets[j].start == slots[i];
        assert next[j].start == slots[i];
      }
    }
    forall j | 0 <= j < |next| ensures next[j].start in slots + [slot] {
      if j < |buckets| {
        assert buckets[j].start in slots;
      } else {
        assert (slots + [slot])[|slots|] == slot;
      }
    }
  }

  /** A bucket is opened only for a slot that has not occurred. */
  lemma {:induction false} FreshSlot(buckets: seq<Bucket>, slots: seq<int>, slot: int)
    requires Increasing(buckets) && Covers(buckets, slots)
    requires buckets != [] ==> buckets[|buckets| - 1].start != slot
    requires forall s :: s in slots ==> s <= slot
    ensures slot !in slots
  {
  }

  // ---------- Conservation ----------

  lemma {:induction false} TallyAppend(points: seq<SeriesPoint>, point: SeriesPoint, f: Field)
    ensures TallyOf(points + [point], f) == AddSum(TallyOf(points, f), point.Value(f))
  {
    InitOfAppend(points, point);
  }

  lemma {:induction false} EmptyTally(points: seq<SeriesPoint>, f: Field)
    ensures TallyOf(points, f).n == 0 ==> TallyOf(points, f).sum == 0.0
  {
    if points != [] {
      EmptyTally(Init(points), f);
    }
  }

  lemma {:induction false} SumsAreTallies(points: seq<SeriesPoint>, f: Field)
    ensures SumsOf(points).At(f) == TallyOf(points, f)
  {
    if points != [] {
      SumsAreTallies(Init(points), f);
    }
  }

  /** Bucketing neither loses nor invents counter deltas: totals and presence agree with the raw points. */
  lemma {:induction false} DeltasConserved(points: seq<SeriesPoint>, slots: seq<int>, f: Field)
    requires |points| == |slots| && IsDelta(f)
    ensures TallyOf(CollapseAll(Buckets(points, slots)), f).sum == TallyOf(points, f).sum
    ensures TallyOf(CollapseAll(Buckets(points, slots)), f).n > 0 <==> TallyOf(points, f).n > 0
  {
    hide Follows, AddToBuckets, SumsOf;
    if points != [] {
      var n := |points| - 1;
      DeltasConserved(points[..n], slots[..n], f);
      var buckets := Buckets(points[..n], slots[..n]);
      AddFollows(buckets, slots[n], points[n]);
      OneMoreConserves(buckets, Buckets(points, slots), slots[n], points[n], f);
      assert Init(points) == points[..n];
    }
  }

  lemma {:induction false} OneMoreConserves(buckets: seq<Bucket>, next: seq<Bucket>, slot: int, p: SeriesPoint,
                                            f: Field)
    requires Follows(buckets, next, slot, p) && IsDelta(f)
    ensures
      var before, after := TallyOf(CollapseAll(buckets), f), TallyOf(CollapseAll(next), f);
      && after.sum == AddSum(before, p.Value(f)).sum
      && (after.n > 0 <==> AddSum(before, p.Value(f)).n > 0)
  {
    var last := if |next| == |buckets| then Last(buckets).members else [];
    LastBucketTally(next, f);
    BeforeTally(buckets, next, slot, p, f, last);
    assert Last(next).members == last + [p];
    TallyAppend(last, p, f);
    EmptyTally(last, f);
    JoinedTally(TallyOf(CollapseAll(Settled(next)), f), TallyOf(last, f), p.Value(f));
  }

  lemma {:induction false} BeforeTally(buckets: seq<Bucket>, next: seq<Bucket>, slot: int, p: SeriesPoint, f: Field,
                                       last: seq<SeriesPoint>)
    requires Follows(buckets, next, slot, p) && IsDelta(f)
    requires last == if |next| == |buckets| then Last(buckets).members else []
    ensures TallyOf(CollapseAll(buckets), f) ==
            AddSum(TallyOf(CollapseAll(Settled(next)), f), SumResult(TallyOf(last, f)))
  {
    if |next| == |buckets| {
      LastBucketTally(buckets, f);
    }
  }

  lemma {:induction false} JoinedTally(settled: Tally, last: Tally, v: Option<real>)
    requires last.n == 0 ==> last.sum == 0.0
    ensures
      var apart, joined := AddSum(AddSum(settled, SumResult(last)), v), AddSum(settled, SumResult(AddSum(last, v)));
      apart.sum == joined.sum && (apart.n > 0 <==> joined.n > 0)
  {
  }

  lemma {:induction false} LastBucketTally(buckets: seq<Bucket>, f: Field)
    requires AllFilled(buckets) && buckets != [] && IsDelta(f)
    ensures TallyOf(CollapseAll(buckets), f) ==
            AddSum(TallyOf(CollapseAll(Settled(buckets)), f), SumResult(TallyOf(Last(buckets).members, f)))
  {
    SumsAreTallies(Last(buckets).members, f);
    TallyAppend(CollapseAll(Settled(buckets)), Collapse(Last(buckets)), f);
  }

  // ---------- Latency ----------

  lemma {:induction false} WeightsBounded(points: seq<SeriesPoint>, lo: real, hi: real)
    requires forall i :: 0 <= i < |points| && Weighs(points[i]) ==> lo <= points[i].latency.value <= hi
    ensures lo * WeightsOf(points).requests <= WeightsOf(points).weighted <= hi * WeightsOf(points).requests
    ensures WeightsOf(points).requests >= 0.0
    ensures WeightsOf(points).requests > 0.0 <==> exists i :: 0 <= i < |points| && Weighs(points[i])
  {
    hide AddWeightedLatency, Weighs;
    if points != [] {
      var init, p := Init(points), Last(points);
      WeightsBounded(init, lo, hi);
      assert points[|points| - 1] == p;
      WeightsStep(WeightsOf(init), p, lo, hi);
      assert forall i :: 0 <= i < |init| ==> points[i] == init[i];
    }
  }

  lemma {:induction false} WeightsStep(w: Weights, p: SeriesPoint, lo: real, hi: real)
    requires lo * w.requests <= w.weighted <= hi * w.requests && w.requests >= 0.0
    requires Weighs(p) ==> lo <= p.latency.value <= hi
    ensures
      var w' := AddWeightedLatency(w, p);
      && lo * w'.requests <= w'.weighted <= hi * w'.requests && w'.requests >= 0.0
      && (w'.requests > 0.0 <==> w.requests > 0.0 || Weighs(p))
  {
    if Weighs(p) {
      ProductBounds(w, p.latency.value, p.requests.value, lo, hi);
    }
  }

  lemma {:induction false} ProductBounds(w: Weights, latency: real, r: real, lo: real, hi: real)
    requires lo * w.requests <= w.weighted <= hi * w.requests
    requires r > 0.0 && lo <= latency <= hi
    ensures lo * (w.requests + r) <= w.weighted + latency * r <= hi * (w.requests + r)
  {
    assert (latency - lo) * r >= 0.0 && (hi - latency) * r >= 0.0;
  }

  lemma {:induction false} QuotientBounds(x: real, y: real, lo: real, hi: real)
    requires y > 0.0 && lo * y <= x <= hi * y
    ensures lo <= x / y <= hi
  {
  }

  /** A bucket has a latency iff a member contributes one, and it lies between the contributions' bounds. */
  lemma {:induction false} BucketLatencyBounded(b: Bucket, lo: real, hi: real)
    requires b.members != []
    requires forall i :: 0 <= i < |b.members| && Weighs(b.members[i]) ==> lo <= b.members[i].latency.value <= hi
    ensures Collapse(b).latency.Some? <==> exists i :: 0 <= i < |b.members| && Weighs(b.members[i])
    ensures Collapse(b).latency.Some? ==> lo <= Collapse(b).latency.value <= hi
  {
    WeightsBounded(b.members, lo, hi);
    var w := WeightsOf(b.members);
    if w.requests > 0.0 {
      QuotientBounds(w.weighted, w.requests, lo, hi);
    }
  }

  // ---------- Idempotence ----------

  ghost predicate NeighboursDiffer(slots: seq<int>) {
    forall i :: 0 < i < |slots| ==> slots[i] != slots[i - 1]
  }

  lemma {:induction false} LoneBuckets(points: seq<SeriesPoint>, slots: seq<int>)
    requires |points| == |slots| && NeighboursDiffer(slots)
    ensures |Buckets(points, slots)| == |points|
    ensures forall j :: 0 <= j < |points| ==> Buckets(points, slots)[j] == Bucket(slots[j], [points[j]])
  {
    hide AddToBuckets, Follows;
    if points != [] {
      var n := |points| - 1;
      var buckets, last := Buckets(points[..n], slots[..n]), Bucket(slots[n], [points[n]]);
      LoneBuckets(points[..n], slots[..n]);
      AddFollows(buckets, slots[n], points[n]);
      LoneNext(buckets, Buckets(points, slots), slots[n], points[n]);
    }
  }

  /** A point of another slot than the last bucket's opens a bucket of its own. */
  lemma {:induction false} LoneNext(buckets: seq<Bucket>, next: seq<Bucket>, slot: int, p: SeriesPoint)
    requires Follows(buckets, next, slot, p) && (buckets != [] ==> Last(buckets).start != slot)
    ensures next == buckets + [Bucket(slot, [p])]
  {
    assert next == Init(next) + [Last(next)];
  }

  ghost predicate StartsAmong(buckets: seq<Bucket>, slots: seq<int>) {
    forall j :: 0 <= j < |buckets| ==> buckets[j].start in slots
  }

  ghost predicate StartsAlternate(buckets: seq<Bucket>) {
    forall j :: 0 < j < |buckets| ==> buckets[j].start != buckets[j - 1].start
  }

  lemma {:induction false} BucketStartsAreSlots(points: seq<SeriesPoint>, slots: seq<int>)
    requires |points| == |slots|
    ensures StartsAmong(Buckets(points, slots), slots)
    ensures StartsAlternate(Buckets(points, slots))
  {
    if points != [] {
      var n := |points| - 1;
      BucketStartsAreSlots(points[..n], slots[..n]);
      AddFollows(Buckets(points[..n], slots[..n]), slots[n], points[n]);
      OneMoreStart(Buckets(points[..n], slots[..n]), Buckets(points, slots), slots[..n], slots[n], points[n]);
      assert slots == slots[..n] + [slots[n]];
    }
  }

  lemma {:induction false} OneMoreStart(buckets: seq<Bucket>, next: seq<Bucket>, slots: seq<int>, slot: int,
                                        p: SeriesPoint)
    requires Follows(buckets, next, slot, p)
    requires StartsAmong(buckets, slots) && StartsAlternate(buckets)
    ensures StartsAmong(next, slots + [slot]) && StartsAlternate(next)
  {
    FollowsFrame(buckets, next, slot, p);
    forall j | 0 <= j < |next| ensures next[j].start in slots + [slot] {
      if j < |next| - 1 {
        assert buckets[j].start in slots;
      }
    }
  }

  lemma {:induction false} CollapsedSlotAt(points: seq<SeriesPoint>, d: int, floor: Option<int>, i: nat)
    requires i < |Buckets(points, Slots(points, d, floor))|
    ensures
      var buckets := Buckets(points, Slots(points, d, floor));
      SlotOf(CollapseAll(buckets)[i].ts, d, floor) == buckets[i].start
  {
    var slots := Slots(points, d, floor);
    var start := Buckets(points, slots)[i].start;
    BucketStartsAreSlots(points, slots);
    CollapsedAt(Buckets(points, slots), i);
    assert start in slots;
    var j :| 0 <= j < |slots| && slots[j] == start;
    SlotFixed(points[j].ts, d, floor);
  }

  lemma {:induction false} CollapsedSlots(points: seq<SeriesPoint>, d: int, floor: Option<int>)
    ensures
      var buckets := Buckets(points, Slots(points, d, floor));
      NeighboursDiffer(Slots(CollapseAll(buckets), d, floor))
  {
    var buckets := Buckets(points, Slots(points, d, floor));
    BucketStartsAreSlots(points, Slots(points, d, floor));
    forall i | 0 <= i < |buckets| ensures SlotOf(CollapseAll(buckets)[i].ts, d, floor) == buckets[i].start {
      CollapsedSlotAt(points, d, floor, i);
    }
  }

  /** Aggregating an aggregated series changes nothing, for any series and any bucket length. */
  lemma {:induction false} AggregationIsIdempotent(series: SeriesData, d: int)
    ensures Aggregated(Aggregated(series, d), d) == Aggregated(series, d)
  {
    var floor := Some(series.start);
    var buckets := Buckets(series.points, Slots(series.points, d, floor));
    CollapsedSlots(series.points, d, floor);
    LoneBuckets(CollapseAll(buckets), Slots(CollapseAll(buckets), d, floor));
  }

  // ---------- The aggregated series ----------

  /** A point that stands for all raw points of its slot. */
  ghost predicate StandsFor(point: SeriesPoint, members: seq<SeriesPoint>) {
    && members != []
    && (forall f: Field :: point.Value(f) == FieldResult(f, TallyOf(members, f)))
    && point.latency == WeightedResult(WeightsOf(members))
    && point.pollId == (if SharesPoll(members) then members[0].pollId else 0)
    && point.run == (if SharesRun(members) then members[0].run else None)
  }

  ghost predicate SharesPoll(points: seq<SeriesPoint>) {
    forall i :: 0 <= i < |points| ==> points[i].pollId == points[0].pollId
  }

  ghost predicate SharesRun(points: seq<SeriesPoint>) {
    forall i :: 0 <= i < |points| ==> points[i].run == points[0].run
  }

  lemma {:induction false} IdentityMeaning(points: seq<SeriesPoint>)
    requires points != []
    ensures
      var id := IdentityOf(points);
      && id.pollIdCommon == SharesPoll(points) && id.pollId == (if id.pollIdCommon then points[0].pollId else 0)
      && id.appRunCommon == SharesRun(points) && id.run == (if id.appRunCommon then points[0].run else None)
  {
    if |points| > 1 {
      IdentityMeaning(Init(points));
      assert Last(points) == points[|points| - 1];
      assert forall i :: 0 <= i < |points| - 1 ==> Init(points)[i] == points[i];
    }
  }

  lemma {:induction false} CollapseStandsFor(b: Bucket)
    requires b.members != []
    ensures StandsFor(Collapse(b), b.members)
  {
    IdentityMeaning(b.members);
    forall f: Field ensures Collapse(b).Value(f) == FieldResult(f, TallyOf(b.members, f)) {
      SumsAreTallies(b.members, f);
    }
  }

  /** For time-sorted points inside the window, a merged series holds one point per occupied slot, with strictly
      increasing timestamps inside the window, each standing for all raw points of its slot. */
  lemma {:induction false} AggregateIsGroupBy(series: SeriesData, d: int)
    requires d > 0 && TimeSorted(series.points)
    requires forall i :: 0 <= i < |series.points| ==> series.start <= series.points[i].ts <= series.end
    requires Aggregated(series, d) != series
    ensures
      var raw, out := series.points, Aggregated(series, d).points;
      var slots := Slots(raw, d, Some(series.start));
      && (forall i, j :: 0 <= i < j < |out| ==> out[i].ts < out[j].ts)
      && (forall j :: 0 <= j < |out| ==> series.start <= out[j].ts <= series.end)
      && (forall j :: 0 <= j < |out| ==> StandsFor(out[j], InSlot(raw, slots, out[j].ts)))
      && (forall i :: 0 <= i < |raw| ==> exists j :: 0 <= j < |out| && out[j].ts == slots[i])
  {
    var raw, floor := series.points, Some(series.start);
    var slots := Slots(raw, d, floor);
    var buckets := Buckets(raw, slots);
    var out := CollapseAll(buckets);
    SortedPointsHaveSortedSlots(raw, d, floor);
    OnePassIsGroupBy(raw, slots);
    forall j | 0 <= j < |out|
      ensures out[j].ts == buckets[j].start && series.start <= out[j].ts <= series.end
      ensures StandsFor(out[j], InSlot(raw, slots, out[j].ts))
    {
      CollapsedAt(buckets, j);
      CollapseStandsFor(buckets[j]);
      var i :| 0 <= i < |slots| && slots[i] == buckets[j].start;
      SlotInWindow(raw[i].ts, d, series.start);
    }
    forall i | 0 <= i < |raw| ensures exists j :: 0 <= j < |out| && out[j].ts == slots[i] {
      assert HasSlot(buckets, slots[i]);
      var j :| 0 <= j < |buckets| && buckets[j].start == slots[i];
      assert out[j].ts == slots[i];
    }
  }

  lemma {:induction false} SlotInWindow(ts: int, d: int, start: int)
    requires d > 0 && start <= ts
    ensures start <= SlotOf(ts, d, Some(start)) <= ts
  {
  }
}
