/** Error rates and latency of the public slots, traced back to the stored counters. */
module PublicLaws {
  import opened Common
  import opened Polls
  import opened Series
  import opened SeriesReads
  import opened SeriesLaws
  import opened Downsample
  import opened DownsampleLaws
  import opened PublicMetrics
  import opened Retention
  import opened Dashboard

  // ---------- Points traced to stored polls ----------

  /** Every baseline entry is the value of some stored poll before p. */
  ghost predicate TracedTo(previous: Baseline, db: seq<Poll>, p: Poll) {
    forall k :: k in COUNTER_KEYS && k in previous ==> Traces(previous, db, p, k)
  }

  ghost predicate Traces(previous: Baseline, db: seq<Poll>, p: Poll, k: Key)
    requires k in previous
  {
    exists q :: q in db && Before(q, p) && Carries(q, k) && previous[k] == Entry(q, k)
  }

  /** A point derived from a stored poll against values of earlier stored polls. */
  ghost predicate Derived(point: SeriesPoint, db: seq<Poll>) {
    exists p, previous :: p in db && TracedTo(previous, db, p) && point == PointOf(View(p), previous)
  }

  lemma {:induction false} HistoryIsTraced(db: seq<Poll>, m: nat)
    requires Ordered(db) && m < |db|
    ensures TracedTo(History(db[..m]), db, db[m])
  {
    forall k | k in COUNTER_KEYS && k in History(db[..m]) ensures Traces(History(db[..m]), db, db[m], k) {
      var q := LastCarrier(db[..m], k).value;
      assert q in db[..m];
      var i :| 0 <= i < m && db[i] == q;
    }
  }

  /** Every native point is derived. */
  lemma {:induction false} NativePointsAreDerived(db: seq<Poll>, start: int, end: int)
    requires Ordered(db)
    ensures forall point :: point in NativePoints(db, start, end, ZERO_TIME) ==> Derived(point, db)
  {
    var views := Views(Between(db, start, end + 1));
    ChooseAll(Between(db, start, end + 1), None);
    forall i | 0 <= i < |views| ensures Derived(NativePoints(db, start, end, ZERO_TIME)[i], db) {
      var m := SourceOf(db, start, end, i);
      NativePointIsLocal(db, start, end, m);
      HistoryIsTraced(db, m);
    }
  }

  /** The stored poll behind the i-th view of a window. */
  lemma {:induction false} SourceOf(db: seq<Poll>, start: int, end: int, i: nat) returns (m: nat)
    requires i < |Views(Between(db, start, end + 1))|
    ensures m < |db| && start <= db[m].ts <= end && Relevant(db[m])
    ensures |Views(Between(db[..m], start, end + 1))| == i
  {
    var init, p := Init(db), Last(db);
    if i < |Views(Between(init, start, end + 1))| {
      m := SourceOf(init, start, end, i);
      assert init[..m] == db[..m];
    } else {
      m := |db| - 1;
      InitOfAppend(Between(init, start, end + 1), p);
    }
  }

  // ---------- Error rate ----------

  /** The source's non-error requests never go back inside a run. */
  ghost predicate SuccessesGrow(db: seq<Poll>) {
    forall p, q :: p in db && q in db && Before(q, p) && p.run == q.run && CarriesBoth(p) && CarriesBoth(q) ==>
                     Successes(q) <= Successes(p)
  }

  predicate CarriesBoth(p: Poll) {
    Carries(p, HttpRequestsTotal) && Carries(p, Http5xxTotal)
  }

  function Successes(p: Poll): real
    requires CarriesBoth(p)
  {
    ValueOf(p, HttpRequestsTotal) - ValueOf(p, Http5xxTotal)
  }

  /** Paired errors never exceed the requests of the same interval. */
  predicate ErrorsFit(point: SeriesPoint) {
    && (point.requests.Some? ==> point.requests.value >= 0.0)
    && (Paired5(point) ==> 0.0 <= point.http5xx.value <= point.requests.value)
  }

  lemma {:induction false} DerivedErrorsFit(point: SeriesPoint, db: seq<Poll>)
    requires Ordered(db) && SuccessesGrow(db) && Derived(point, db)
    ensures ErrorsFit(point)
  {
    var p, previous :| p in db && TracedTo(previous, db, p) && point == PointOf(View(p), previous);
    if Paired5(point) {
      PairedErrorsFit(p, previous, db);
    }
  }

  lemma {:induction false} PairedErrorsFit(p: Poll, previous: Baseline, db: seq<Poll>)
    requires Ordered(db) && SuccessesGrow(db) && p in db && TracedTo(previous, db, p)
    requires Paired(View(p), previous, Http5xxTotal)
    ensures
      var v := View(p);
      0.0 <= CounterDelta(v, previous, Http5xxTotal).value <= CounterDelta(v, previous, HttpRequestsTotal).value
  {
    var a, b := HttpRequestsTotal, Http5xxTotal;
    ViewCarries(p, a);
    ViewCarries(p, b);
    assert Traces(previous, db, p, a) && Traces(previous, db, p, b);
    var q :| q in db && Before(q, p) && Carries(q, a) && previous[a] == Entry(q, a);
    var r :| r in db && Before(r, p) && Carries(r, b) && previous[b] == Entry(r, b);
    SameIdSamePoll(db, q, r);
    assert CarriesBoth(p) && CarriesBoth(q) && Successes(q) <= Successes(p);
  }

  lemma {:induction false} SameIdSamePoll(db: seq<Poll>, p: Poll, q: Poll)
    requires Ordered(db) && p in db && q in db && p.id == q.id
    ensures p == q
  {
    var i :| 0 <= i < |db| && db[i] == p;
    var j :| 0 <= j < |db| && db[j] == q;
  }

  /** Over a slot whose intervals are all paired, errors stay within requests. */
  lemma {:induction false} SlotErrorsFit(points: seq<SeriesPoint>)
    requires forall i :: 0 <= i < |points| ==> ErrorsFit(points[i])
    ensures
      var g, t := PairingOf(points), TallyOf(points, Requests);
      g.paired5 <= g.intervals == t.n && t.sum >= 0.0 && (g.paired5 == g.intervals ==> 0.0 <= g.sum5 <= t.sum)
  {
    if points != [] {
      SlotErrorsFit(Init(points));
      assert ErrorsFit(points[|points| - 1]);
    }
  }

  lemma {:induction false} PublicAt(buckets: seq<Bucket>, j: nat)
    requires AllFilled(buckets) && j < |buckets|
    ensures PublicAll(buckets)[j] == PublicOf(buckets[j])
  {
    if j < |buckets| - 1 {
      PublicAt(Init(buckets), j);
    }
  }

  lemma {:induction false} RateOfSlot(b: Bucket)
    requires b.members != [] && forall i :: 0 <= i < |b.members| ==> ErrorsFit(b.members[i])
    ensures PublicOf(b).http5xxRate.Some? ==> 0.0 <= PublicOf(b).http5xxRate.value <= 1.0
  {
    SlotErrorsFit(b.members);
    SumsAreTallies(b.members, Requests);
    var rate := PublicOf(b).http5xxRate;
    if rate.Some? {
      QuotientBounds(PairingOf(b.members).sum5, TallyOf(b.members, Requests).sum, 0.0, 1.0);
    }
  }

  lemma {:induction false} UsableAreMembers(points: seq<SeriesPoint>)
    ensures forall p :: p in UsablePoints(points) <==> p in points && Usable(p)
  {
    hide Usable;
    if points != [] {
      UsableAreMembers(Init(points));
      assert points == Init(points) + [Last(points)];
    }
  }

  lemma {:induction false} BucketMembers(points: seq<SeriesPoint>, slots: seq<int>, j: nat, i: nat)
    requires |points| == |slots| && j < |Buckets(points, slots)| && i < |Buckets(points, slots)[j].members|
    ensures Buckets(points, slots)[j].members[i] in points
  {
    hide Follows, AddToBuckets;
    var n := |points| - 1;
    assert points == points[..n] + [points[n]];
    var before := Buckets(points[..n], slots[..n]);
    AddFollows(before, slots[n], points[n]);
    FollowsFrame(before, Buckets(points, slots), slots[n], points[n]);
    if j < |before| && i < |before[j].members| {
      BucketMembers(points[..n], slots[..n], j, i);
    }
  }

  /** A member of a public slot is one of the grouped points. */
  lemma {:induction false} SlotMembers(points: seq<SeriesPoint>, j: nat, i: nat)
    requires j < |MinuteBuckets(points)| && i < |MinuteBuckets(points)[j].members|
    ensures MinuteBuckets(points)[j].members[i] in points
  {
    var usable := UsablePoints(points);
    BucketMembers(usable, Slots(usable, MINUTE, None), j, i);
    UsableAreMembers(points);
  }

  // ---------- The points of a public answer ----------

  function AnswerPoints(db: seq<Poll>, retention: Option<int>, now: int): seq<SeriesPoint> {
    var c := ClampToRetention(now - HOUR, retention);
    var series := SeriesOf(c.start, now, NativePoints(db, c.start, now, c.cutoff));
    (if c.clamped then Cleared(series, c.cutoff) else series).points
  }

  /** The polls a public answer can depend on. */
  function Retained(db: seq<Poll>, retention: Option<int>): seq<Poll> {
    if retention.None? then db else From(db, retention.value)
  }

  lemma {:induction false} AnswerIsGrouped(db: seq<Poll>, retention: Option<int>, now: int)
    ensures
      var answer := PublicAnswer(db, retention, now);
      answer.Success? ==>
        answer.value == PublicSeries([], None) || answer.value == Grouped(AnswerPoints(db, retention, now))
  {
    hide Grouped, Cleared, NativePoints, SeriesOf;
  }

  lemma {:induction false} RetainedOrdered(db: seq<Poll>, retention: Option<int>)
    requires Ordered(db)
    ensures Ordered(Retained(db, retention)) && forall p :: p in Retained(db, retention) ==> p in db
  {
    if retention.Some? {
      FromOrdered(db, retention.value);
      FromContents(db, retention.value);
    }
  }

  /** Each answered point is a native point of the retained polls, possibly with its counters cleared. */
  lemma {:induction false} AnswerPointsAreNative(db: seq<Poll>, retention: Option<int>, now: int)
    requires Ordered(db)
    ensures
      var start := ClampToRetention(now - HOUR, retention).start;
      var points, native := AnswerPoints(db, retention, now),
          NativePoints(Retained(db, retention), start, now, ZERO_TIME);
      |points| == |native| &&
      forall i :: 0 <= i < |points| ==> points[i] == native[i] || points[i] == ClearCounters(native[i])
  {
    hide NativePoints, ClearCounters, CutoffIndex;
    var c := ClampToRetention(now - HOUR, retention);
    if retention.Some? {
      CutoffReadsRetained(db, c.start, now, retention.value);
    }
  }

  /** If non-error requests never go back inside a run, every public error rate is a proportion. */
  lemma {:induction false} PublicRatesAreProportions(db: seq<Poll>, retention: Option<int>, now: int)
    requires Ordered(db) && SuccessesGrow(db) && PublicAnswer(db, retention, now).Success?
    ensures forall j :: 0 <= j < |PublicAnswer(db, retention, now).value.points| ==>
                          var rate := PublicAnswer(db, retention, now).value.points[j].http5xxRate;
                          rate.Some? ==> 0.0 <= rate.value <= 1.0
  {
    hide PublicAnswer, AnswerPoints, PublicOf, MinuteBuckets, ErrorsFit;
    var points := AnswerPoints(db, retention, now);
    AnswerIsGrouped(db, retention, now);
    AnswerErrorsFit(db, retention, now);
    var buckets := MinuteBuckets(points);
    forall j | 0 <= j < |buckets|
      ensures PublicAll(buckets)[j].http5xxRate.Some? ==> 0.0 <= PublicAll(buckets)[j].http5xxRate.value <= 1.0
    {
      PublicAt(buckets, j);
      forall i | 0 <= i < |buckets[j].members| ensures ErrorsFit(buckets[j].members[i]) {
        SlotMembers(points, j, i);
      }
      RateOfSlot(buckets[j]);
    }
  }

  lemma {:induction false} AnswerErrorsFit(db: seq<Poll>, retention: Option<int>, now: int)
    requires Ordered(db) && SuccessesGrow(db)
    ensures forall p :: p in AnswerPoints(db, retention, now) ==> ErrorsFit(p)
  {
    hide NativePoints, AnswerPoints, Derived, SuccessesGrow;
    var start := ClampToRetention(now - HOUR, retention).start;
    var kept, points := Retained(db, retention), AnswerPoints(db, retention, now);
    var native := NativePoints(kept, start, now, ZERO_TIME);
    RetainedOrdered(db, retention);
    SuccessesGrowInside(db, kept);
    AnswerPointsAreNative(db, retention, now);
    NativePointsAreDerived(kept, start, now);
    forall i | 0 <= i < |points| ensures ErrorsFit(points[i]) {
      assert native[i] in native;
      DerivedErrorsFit(native[i], kept);
    }
  }

  lemma {:induction false} SuccessesGrowInside(db: seq<Poll>, kept: seq<Poll>)
    requires SuccessesGrow(db) && forall p :: p in kept ==> p in db
    ensures SuccessesGrow(kept)
  {
  }

  // ---------- Latency ----------

  /** The request time a stored poll gained over the nearest earlier poll that has the counter. */
  function TimeGained(db: seq<Poll>, id: int): real {
    if db == [] then 0.0
    else if Last(db).id == id then
      var delta := NearestDelta(Last(db), Init(db), HttpRequestTimeTotal);
      if delta.Some? then delta.value else 0.0
    else TimeGained(Init(db), id)
  }

  /** The request time behind the points of a list that have a latency. */
  function TimeBehind(db: seq<Poll>, points: seq<SeriesPoint>): real {
    if points == [] then 0.0
    else TimeBehind(db, Init(points)) + if Last(points).latency.Some? then TimeGained(db, Last(points).pollId) else 0.0
  }

  /** A latency is the gained request time over a positive request delta. */
  predicate LatencyFits(point: SeriesPoint, db: seq<Poll>) {
    point.latency.Some? ==>
      Weighs(point) && point.latency.value * point.requests.value == TimeGained(db, point.pollId)
  }

  lemma {:induction false} TimeGainedAt(db: seq<Poll>, m: nat)
    requires Ordered(db) && m < |db|
    ensures TimeGained(db, db[m].id) ==
            var delta := NearestDelta(db[m], db[..m], HttpRequestTimeTotal);
            if delta.Some? then delta.value else 0.0
  {
    if m < |db| - 1 {
      TimeGainedAt(Init(db), m);
      assert Init(db)[..m] == db[..m] && Init(db)[m] == db[m];
    } else {
      assert Init(db) == db[..m];
    }
  }

  lemma {:induction false} LatencyProduct(p: Poll, previous: Baseline)
    ensures
      var point, time := PointOf(p, previous), CounterDelta(p, previous, HttpRequestTimeTotal);
      point.latency.Some? ==> Weighs(point) && time.Some? && point.latency.value * point.requests.value == time.value
  {
    hide CounterDelta, MatchingBaseline;
    var time := CounterDelta(p, previous, HttpRequestTimeTotal);
    var requests := CounterDelta(p, previous, HttpRequestsTotal);
    if Latency(p, previous).Some? {
      Quotient(time.value, requests.value);
    }
  }

  lemma {:induction false} NativeLatencyFits(db: seq<Poll>, m: nat)
    requires Ordered(db) && m < |db|
    ensures LatencyFits(PointOf(View(db[m]), History(db[..m])), db)
  {
    hide PointOf, CounterDelta, NearestDelta, History, Weighs;
    var v, h := View(db[m]), History(db[..m]);
    TimeGainedAt(db, m);
    DeltaIsNearest(db[m], db[..m], HttpRequestTimeTotal);
    LatencyProduct(v, h);
    PointIdentity(v, h);
  }

  lemma {:induction false} PointIdentity(p: Poll, previous: Baseline)
    ensures PointOf(p, previous).pollId == p.id
  {
  }

  lemma {:induction false} Quotient(x: real, y: real)
    requires y > 0.0
    ensures x / y * y == x
  {
  }

  lemma {:induction false} SlotTime(db: seq<Poll>, points: seq<SeriesPoint>)
    requires forall i :: 0 <= i < |points| ==> LatencyFits(points[i], db)
    ensures WeightsOf(points).weighted == TimeBehind(db, points)
  {
    if points != [] {
      SlotTime(db, Init(points));
      assert LatencyFits(points[|points| - 1], db);
    }
  }

  lemma {:induction false} AnswerLatencyFits(db: seq<Poll>, retention: Option<int>, now: int)
    requires Ordered(db)
    ensures forall p :: p in AnswerPoints(db, retention, now) ==> LatencyFits(p, Retained(db, retention))
  {
    hide NativePoints, AnswerPoints, PointOf, View, History, Weighs, TimeGained;
    var start := ClampToRetention(now - HOUR, retention).start;
    var kept, points := Retained(db, retention), AnswerPoints(db, retention, now);
    RetainedOrdered(db, retention);
    AnswerPointsAreNative(db, retention, now);
    NativeCount(kept, start, now);
    forall i | 0 <= i < |points| ensures LatencyFits(points[i], kept) {
      var m := SourceOf(kept, start, now, i);
      NativePointIsLocal(kept, start, now, m);
      NativeLatencyFits(kept, m);
    }
  }

  lemma {:induction false} NativeCount(db: seq<Poll>, start: int, end: int)
    ensures |NativePoints(db, start, end, ZERO_TIME)| == |Views(Between(db, start, end + 1))|
  {
    ChooseAll(Between(db, start, end + 1), None);
  }

  /** In every public slot, the latency times its request weight is exactly the request time gained by the slot's
      points that have a latency. */
  lemma {:induction false} PublicLatencyIsExact(db: seq<Poll>, retention: Option<int>, now: int, j: nat)
    requires Ordered(db) && j < |MinuteBuckets(AnswerPoints(db, retention, now))|
    ensures
      var members := MinuteBuckets(AnswerPoints(db, retention, now))[j].members;
      var point := Grouped(AnswerPoints(db, retention, now)).points[j];
      && (point.latency.Some? <==> point.latencyRequests.Some?)
      && (point.latency.Some? ==>
            point.latency.value * point.latencyRequests.value == TimeBehind(Retained(db, retention), members))
  {
    hide AnswerPoints, MinuteBuckets, LatencyFits, TimeBehind, PublicOf;
    var points := AnswerPoints(db, retention, now);
    var b := MinuteBuckets(points)[j];
    AnswerLatencyFits(db, retention, now);
    PublicAt(MinuteBuckets(points), j);
    forall i | 0 <= i < |b.members| ensures LatencyFits(b.members[i], Retained(db, retention)) {
      SlotMembers(points, j, i);
    }
    SlotLatency(b, Retained(db, retention));
  }

  lemma {:induction false} SlotLatency(b: Bucket, db: seq<Poll>)
    requires b.members != [] && forall i :: 0 <= i < |b.members| ==> LatencyFits(b.members[i], db)
    ensures
      var point := PublicOf(b);
      && (point.latency.Some? <==> point.latencyRequests.Some?)
      && (point.latency.Some? ==> point.latency.value * point.latencyRequests.value == TimeBehind(db, b.members))
  {
    hide LatencyFits, TimeBehind, PairingOf, SumsOf, IdentityOf;
    SlotTime(db, b.members);
    var w := WeightsOf(b.members);
    if w.requests > 0.0 {
      Quotient(w.weighted, w.requests);
    }
  }

  // ---------- Slots are minutes ----------

  lemma {:induction false} PointsAreSorted(ps: seq<Poll>, base: Baseline)
    requires Ordered(ps)
    ensures TimeSorted(Points(ps, base))
  {
    var points := Points(ps, base);
    forall i, j | 0 <= i < j < |points| ensures points[i].ts <= points[j].ts {
      PointAt(ps, base, i);
      PointAt(ps, base, j);
      assert Before(ps[i], ps[j]);
    }
  }

  ghost predicate Stems(v: Poll, ps: seq<Poll>) {
    exists i :: 0 <= i < |ps| && ps[i].ts == v.ts && ps[i].id == v.id
  }

  lemma {:induction false} StemsEarlier(v: Poll, ps: seq<Poll>)
    requires Ordered(ps) && ps != [] && Stems(v, Init(ps))
    ensures Before(v, Last(ps)) && v.id != Last(ps).id && Stems(v, ps)
  {
    var i :| 0 <= i < |ps| - 1 && ps[i].ts == v.ts && ps[i].id == v.id;
    assert Before(ps[i], ps[|ps| - 1]);
  }

  lemma {:induction false} OrderedAppend(vs: seq<Poll>, v: Poll)
    requires Ordered(vs) && forall u :: u in vs ==> Before(u, v) && u.id != v.id
    ensures Ordered(vs + [v])
  {
  }

  lemma {:induction false} OrderedInit(ps: seq<Poll>)
    requires Ordered(ps) && ps != []
    ensures Ordered(Init(ps))
  {
  }

  lemma {:induction false} ViewsOrdered(ps: seq<Poll>)
    requires Ordered(ps)
    ensures Ordered(Views(ps)) && forall v :: v in Views(ps) ==> Stems(v, ps)
  {
    hide Relevant, Ordered, Stems, Before;
    if ps != [] {
      var views, v := Views(Init(ps)), View(Last(ps));
      OrderedInit(ps);
      ViewsOrdered(Init(ps));
      LastStems(ps);
      forall u | u in views ensures Before(u, v) && u.id != v.id && Stems(u, ps) {
        StemsEarlier(u, ps);
        BeforeView(u, Last(ps));
      }
      OrderedAppend(views, v);
    }
  }

  lemma {:induction false} LastStems(ps: seq<Poll>)
    requires ps != []
    ensures Stems(View(Last(ps)), ps)
  {
    assert ps[|ps| - 1] == Last(ps);
  }

  lemma {:induction false} BeforeView(u: Poll, p: Poll)
    requires Before(u, p)
    ensures Before(u, View(p))
  {
  }

  lemma {:induction false} UsableSorted(points: seq<SeriesPoint>)
    requires TimeSorted(points)
    ensures TimeSorted(UsablePoints(points))
  {
    hide Usable;
    if points != [] {
      var init, p := Init(points), Last(points);
      UsableSorted(init);
      UsableAreMembers(init);
      forall q | q in UsablePoints(init) ensures q.ts <= p.ts {
        var i :| 0 <= i < |init| && init[i] == q;
        assert points[i].ts <= points[|points| - 1].ts;
      }
    }
  }

  lemma {:induction false} AnswerPointsSorted(db: seq<Poll>, retention: Option<int>, now: int)
    requires Ordered(db)
    ensures TimeSorted(AnswerPoints(db, retention, now))
  {
    hide NativePoints, AnswerPoints;
    var start := ClampToRetention(now - HOUR, retention).start;
    var kept, points := Retained(db, retention), AnswerPoints(db, retention, now);
    RetainedOrdered(db, retention);
    NativeSorted(kept, start, now);
    AnswerPointsAreNative(db, retention, now);
  }

  lemma {:induction false} NativeSorted(db: seq<Poll>, start: int, end: int)
    requires Ordered(db)
    ensures TimeSorted(NativePoints(db, start, end, ZERO_TIME))
  {
    BetweenOrdered(db, start, end + 1);
    ViewsOrdered(Between(db, start, end + 1));
    ChooseAll(Between(db, start, end + 1), None);
    PointsAreSorted(Views(Between(db, start, end + 1)), BaselineOf(db, start, ZERO_TIME));
  }

  /** A public answer has one slot per minute that holds a usable point, in order, and each slot gathers exactly the
      usable points of its minute. */
  lemma {:induction false} SlotsAreMinutes(db: seq<Poll>, retention: Option<int>, now: int)
    requires Ordered(db)
    ensures
      var usable := UsablePoints(AnswerPoints(db, retention, now));
      var buckets, minutes := MinuteBuckets(AnswerPoints(db, retention, now)), Slots(usable, MINUTE, None);
      Increasing(buckets) && Complete(buckets, usable, minutes) && Covers(buckets, minutes)
  {
    var points := AnswerPoints(db, retention, now);
    AnswerPointsSorted(db, retention, now);
    UsableSorted(points);
    SortedPointsHaveSortedSlots(UsablePoints(points), MINUTE, None);
    OnePassIsGroupBy(UsablePoints(points), Slots(UsablePoints(points), MINUTE, None));
  }

  // ---------- Error coverage ----------

  /** The points of a slot that count requests. */
  function CountedPoints(points: seq<SeriesPoint>): seq<SeriesPoint> {
    if points == [] then []
    else if Last(points).requests.Some? then CountedPoints(Init(points)) + [Last(points)]
    else CountedPoints(Init(points))
  }

  ghost predicate Covered(points: seq<SeriesPoint>, f: Field) {
    points != [] && forall p :: p in points ==> if f == Http4xx then Paired4(p) else Paired5(p)
  }

  ghost predicate Agrees(intervals: nat, paired: nat, sum: real, counted: seq<SeriesPoint>, f: Field) {
    && intervals == |counted| && paired <= intervals
    && (intervals > 0 && paired == intervals <==> Covered(counted, f))
    && (paired == intervals ==> sum == TallyOf(counted, f).sum)
  }

  lemma {:induction false} AgreesNext(intervals: nat, paired: nat, sum: real, counted: seq<SeriesPoint>, f: Field,
                                      p: SeriesPoint)
    requires Agrees(intervals, paired, sum, counted, f) && p.requests.Some? && (f == Http4xx || f == Http5xx)
    ensures
      var fits := if f == Http4xx then Paired4(p) else Paired5(p);
      Agrees(intervals + 1, if fits then paired + 1 else paired, if fits then sum + p.Value(f).value else sum,
             counted + [p], f)
  {
    TallyAppend(counted, p, f);
    var all := counted + [p];
    var fits := if f == Http4xx then Paired4(p) else Paired5(p);
    assert p in all && forall q :: q in all <==> q in counted || q == p;
    assert counted == [] ==> intervals == 0;
  }

  lemma {:induction false} PairingCountsCoverage(points: seq<SeriesPoint>)
    ensures
      var g, counted := PairingOf(points), CountedPoints(points);
      Agrees(g.intervals, g.paired4, g.sum4, counted, Http4xx)
          && Agrees(g.intervals, g.paired5, g.sum5, counted, Http5xx)
  {
    hide Agrees, Paired4, Paired5;
    if points == [] {
      NothingCovered();
    } else {
      var init, p := Init(points), Last(points);
      PairingCountsCoverage(init);
      if p.requests.Some? {
        var g := PairingOf(init);
        PairedHaveValues(p);
        AgreesNext(g.intervals, g.paired4, g.sum4, CountedPoints(init), Http4xx, p);
        AgreesNext(g.intervals, g.paired5, g.sum5, CountedPoints(init), Http5xx, p);
      }
    }
  }

  lemma {:induction false} NothingCovered()
    ensures Agrees(0, 0, 0.0, [], Http4xx) && Agrees(0, 0, 0.0, [], Http5xx)
  {
  }

  lemma {:induction false} PairedHaveValues(p: SeriesPoint)
    ensures Paired4(p) ==> p.http4xx.Some? && p.Value(Http4xx) == p.http4xx
    ensures Paired5(p) ==> p.http5xx.Some? && p.Value(Http5xx) == p.http5xx
  {
  }

  /** A slot shows an error total exactly if every request interval in it has errors over the same baseline, and then
      the sum over just these intervals. */
  lemma {:induction false} ErrorsNeedFullCoverage(b: Bucket)
    requires b.members != []
    ensures
      var counted := CountedPoints(b.members);
      && PublicOf(b).http4xx == (if Covered(counted, Http4xx) then Some(TallyOf(counted, Http4xx).sum) else None)
      && PublicOf(b).http5xx == (if Covered(counted, Http5xx) then Some(TallyOf(counted, Http5xx).sum) else None)
  {
    hide Covered, TallyOf, Collapse;
    PairingCountsCoverage(b.members);
  }

  // ---------- Between the deletion and the move of the cutoff ----------

  lemma {:induction false} NothingBetween(db: seq<Poll>, cutoff: int, lo: int, hi: int)
    requires hi <= cutoff
    ensures Between(From(db, cutoff), lo, hi) == []
  {
    FromContents(db, cutoff);
    BetweenContents(From(db, cutoff), lo, hi);
    if Between(From(db, cutoff), lo, hi) != [] {
      assert Last(Between(From(db, cutoff), lo, hi)) in Between(From(db, cutoff), lo, hi);
    }
  }

  lemma {:induction false} SameBetween(db: seq<Poll>, cutoff: int, lo: int, hi: int)
    requires lo <= cutoff
    ensures Between(From(db, cutoff), lo, hi) == Between(db, cutoff, hi)
  {
    if db != [] {
      SameBetween(Init(db), cutoff, lo, hi);
      InitOfAppend(From(Init(db), cutoff), Last(db));
    }
  }

  /** Against an empty baseline nothing is measured, so there is nothing to clear. */
  lemma {:induction false} FirstHasNoCounters(p: Poll)
    ensures ClearCounters(PointOf(p, map[])) == PointOf(p, map[])
  {
  }

  lemma {:induction false} SortedIndex(points: seq<SeriesPoint>, cutoff: int)
    requires TimeSorted(points) && points != [] && cutoff <= points[0].ts
    ensures CutoffIndex(points, cutoff) == 0
  {
    CutoffIndexIsEarliest(points, cutoff);
  }

  /** Clearing at a cutoff that no point precedes changes nothing when the baseline was empty. */
  lemma {:induction false} ClearingIsIdle(ps: seq<Poll>, start: int, end: int, cutoff: int)
    requires Ordered(ps) && forall p :: p in ps ==> cutoff <= p.ts
    ensures Cleared(SeriesOf(start, end, Points(ps, map[])), cutoff).points == Points(ps, map[])
  {
    hide PointOf, ClearCounters, CutoffIndex;
    var points := Points(ps, map[]);
    if ps == [] {
      CutoffIndexIsEarliest(points, cutoff);
    } else {
      PointsAreSorted(ps, map[]);
      PointAt(ps, map[], 0);
      assert ps[0] in ps;
      FirstTime(ps[0]);
      SortedIndex(points, cutoff);
      FirstHasNoCounters(ps[0]);
      assert State(ps[..0], map[]) == map[];
    }
  }

  lemma {:induction false} FirstTime(p: Poll)
    ensures PointOf(p, map[]).ts == p.ts
  {
  }

  /** The points of a window that begins at or before everything retained, read after the deletion. */
  lemma {:induction false} RetainedPoints(db: seq<Poll>, start: int, end: int, from: int, cutoff: int)
    requires Ordered(db) && start <= cutoff
    ensures
      var ps := Views(Between(db, cutoff, end + 1));
      && NativePoints(From(db, cutoff), start, end, from) == Points(ps, map[])
      && Ordered(ps) && forall p :: p in ps ==> cutoff <= p.ts
    ensures Between(From(db, cutoff), start, end + 1) == Between(db, cutoff, end + 1)
  {
    hide Points, View;
    var ps := Between(db, cutoff, end + 1);
    SameBetween(db, cutoff, start, end + 1);
    NothingBetween(db, cutoff, from, start);
    assert BaselineOf(From(db, cutoff), start, from) == map[];
    ChooseAll(ps, None);
    BetweenOrdered(db, cutoff, end + 1);
    ViewsOrdered(ps);
    BetweenContents(db, cutoff, end + 1);
    forall v | v in Views(ps) ensures cutoff <= v.ts {
      var i :| 0 <= i < |ps| && ps[i].ts == v.ts && ps[i].id == v.id;
      assert ps[i] in ps;
    }
  }

  lemma {:induction false} UndeletedPoints(db: seq<Poll>, end: int, cutoff: int)
    ensures NativePoints(db, cutoff, end, cutoff) == NativePoints(From(db, cutoff), cutoff, end, cutoff)
  {
    BetweenFrom(db, cutoff, cutoff, end + 1);
    BetweenFrom(db, cutoff, cutoff, cutoff);
  }

  lemma {:induction false} NothingGrouped()
    ensures Grouped([]) == PublicSeries([], None)
  {
  }

  lemma {:induction false} NothingFrom(db: seq<Poll>, cutoff: int, now: int)
    requires now < cutoff
    ensures Between(db, cutoff, now + 1) == []
  {
    BetweenContents(db, cutoff, now + 1);
    if Between(db, cutoff, now + 1) != [] {
      assert Last(Between(db, cutoff, now + 1)) in Between(db, cutoff, now + 1);
    }
  }

  lemma {:induction false} NoPoints()
    ensures Points(Views([]), map[]) == []
  {
  }

  lemma {:induction false} ExpiredAnswer(db: seq<Poll>, tracked: int, cutoff: int, now: int)
    requires Ordered(db) && tracked <= cutoff && now < cutoff
    ensures PublicAnswer(From(db, cutoff), Some(tracked), now) == Success(PublicSeries([], None))
  {
    hide Grouped, Cleared, From, Between, Points, SeriesOf, NativePoints;
    NothingGrouped();
    var start := ClampToRetention(now - HOUR, Some(tracked)).start;
    if start < now {
      NothingFrom(db, cutoff, now);
      RetainedPoints(db, start, now, tracked, cutoff);
      NoPoints();
      ClearingIsIdle([], start, now, tracked);
      SeriesPoints(start, now, []);
    }
  }

  lemma {:induction false} UnclampedAnswer(db: seq<Poll>, tracked: int, cutoff: int, now: int)
    requires tracked <= cutoff <= now - HOUR
    ensures PublicAnswer(From(db, cutoff), Some(tracked), now) == PublicAnswer(db, Some(cutoff), now)
  {
    hide Grouped, Cleared, From, Between, Points, SeriesOf;
    var start := now - HOUR;
    BetweenFrom(db, cutoff, start, now + 1);
    SameBetween(db, cutoff, tracked, start);
    assert BaselineOf(From(db, cutoff), start, tracked) == BaselineOf(db, start, cutoff);
  }

  /** The clamped reads of both sides, before and after the cutoff has moved. */
  lemma {:induction false} ClampedAnswer(db: seq<Poll>, tracked: int, cutoff: int, now: int)
    requires Ordered(db) && tracked < cutoff && now - HOUR < cutoff < now
    ensures PublicAnswer(From(db, cutoff), Some(tracked), now) == PublicAnswer(db, Some(cutoff), now)
  {
    hide Grouped, Cleared, From, Between, Points, SeriesOf, NativePoints;
    var start := ClampToRetention(now - HOUR, Some(tracked)).start;
    var ps := Views(Between(db, cutoff, now + 1));
    RetainedPoints(db, start, now, tracked, cutoff);
    ClearingIsIdle(ps, start, now, tracked);
    ClearingIsIdle(ps, cutoff, now, cutoff);
    UndeletedPoints(db, now, cutoff);
    RetainedPoints(db, cutoff, now, cutoff, cutoff);
    SeriesPoints(start, now, Points(ps, map[]));
  }

  lemma {:induction false} SeriesPoints(start: int, end: int, points: seq<SeriesPoint>)
    ensures SeriesOf(start, end, points).points == points
  {
  }

  /** The polls of this very instant, read without a baseline, have nothing to show and are not too many. */
  ghost predicate NothingToShow(db: seq<Poll>, now: int) {
    var ps := Between(db, now, now + 1);
    |ps| <= PUBLIC_POLL_LIMIT && UsablePoints(Points(Views(ps), map[])) == []
  }

  lemma {:induction false} NothingUsable(points: seq<SeriesPoint>)
    requires UsablePoints(points) == []
    ensures LatestHttp(points) == None
  {
    if points != [] {
      NothingUsable(Init(points));
    }
  }

  lemma {:induction false} GroupedIsEmptyIff(points: seq<SeriesPoint>)
    ensures Grouped(points) == PublicSeries([], None) <==> UsablePoints(points) == []
  {
    hide LatestHttp, UsablePoints, PublicOf;
    if UsablePoints(points) == [] {
      NothingUsable(points);
    }
    assert PublicAll(MinuteBuckets(points)) == [] <==> MinuteBuckets(points) == [];
  }

  /** If the cutoff is this very instant, the moved one gives the empty answer, the tracked one what polls of this
      instant show. */
  lemma {:induction false} AnswerAtCutoff(db: seq<Poll>, tracked: int, now: int)
    requires Ordered(db) && tracked < now
    ensures PublicAnswer(db, Some(now), now) == Success(PublicSeries([], None))
    ensures PublicAnswer(From(db, now), Some(tracked), now) == Success(PublicSeries([], None)) <==>
              NothingToShow(db, now)
  {
    hide Grouped, Cleared, From, Between, Points, SeriesOf, NativePoints, UsablePoints;
    var start := ClampToRetention(now - HOUR, Some(tracked)).start;
    var ps := Views(Between(db, now, now + 1));
    RetainedPoints(db, start, now, tracked, now);
    ClearingIsIdle(ps, start, now, tracked);
    SeriesPoints(start, now, Points(ps, map[]));
    GroupedIsEmptyIff(Points(ps, map[]));
  }

  /** After the deletion the public answer is already that of the new cutoff, though the tracked one has not moved yet
      or, if the deletion reported an error, does not move at all; unless the new cutoff is this very instant and a
      poll stored at it has something to show. */
  lemma {:induction false} AnswerBetweenDeletionAndMove(db: seq<Poll>, tracked: int, cutoff: int, now: int)
    requires Ordered(db) && tracked <= cutoff
    ensures PublicAnswer(From(db, cutoff), Some(tracked), now) == PublicAnswer(db, Some(cutoff), now) <==>
              cutoff != now || tracked == cutoff || NothingToShow(db, now)
  {
    hide BoundedResult, Cleared, From, NothingToShow, Grouped;
    if tracked == cutoff {
      DeletionIsInvisible(db, cutoff, cutoff, now);
    } else if cutoff <= now - HOUR {
      UnclampedAnswer(db, tracked, cutoff, now);
    } else if now < cutoff {
      ExpiredAnswer(db, tracked, cutoff, now);
    } else if now == cutoff {
      AnswerAtCutoff(db, tracked, now);
    } else {
      ClampedAnswer(db, tracked, cutoff, now);
    }
  }
}
