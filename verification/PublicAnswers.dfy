/** The public answer as a whole, told from the stored polls and the points of a native read. */
module PublicAnswers {
  import opened Common
  import opened Averages
  import opened Polls
  import opened Series
  import opened SeriesReads
  import opened Downsample
  import opened DownsampleLaws
  import opened DownsampleMeans
  import opened Dashboard
  import opened PublicMetrics
  import opened Retention
  import opened PublicLaws

  // ---------- One slot ----------

  /** The points that count requests, and those among them whose errors are counted over the same interval. */
  function Counting(ps: seq<SeriesPoint>): seq<SeriesPoint> {
    if ps == [] then []
    else Counting(Init(ps)) + if Last(ps).requests.Some? then [Last(ps)] else []
  }

  ghost predicate AllWith4xx(ps: seq<SeriesPoint>) {
    ps != [] && forall p :: p in ps ==> p.paired4xx && p.http4xx.Some?
  }

  ghost predicate AllWith5xx(ps: seq<SeriesPoint>) {
    ps != [] && forall p :: p in ps ==> p.paired5xx && p.http5xx.Some?
  }

  /** Requests are added up; errors too, if every counting point has them; the error rate is the share of the requests;
      the latency is weighted by the requests it stands for; gauges are averaged. */
  ghost predicate Answers(out: PublicPoint, ps: seq<SeriesPoint>) {
    && IsSum(out.requests, Given(ps, (p: SeriesPoint) => p.requests))
    && AnswersErrors(out, Counting(ps))
    && AnswersLatency(out, ps)
    && AnswersGauges(out, ps)
  }

  ghost predicate AnswersErrors(out: PublicPoint, counting: seq<SeriesPoint>) {
    && (out.http4xx.Some? <==> AllWith4xx(counting))
    && (out.http4xx.Some? ==> out.http4xx.value == Sum(Given(counting, (p: SeriesPoint) => p.http4xx)))
    && (out.http5xx.Some? <==> AllWith5xx(counting))
    && (out.http5xx.Some? ==> out.http5xx.value == Sum(Given(counting, (p: SeriesPoint) => p.http5xx)))
    && (out.http5xxRate.Some? <==> out.http5xx.Some? && out.requests.Some? && out.requests.value > 0.0)
    && (out.http5xxRate.Some? ==> out.http5xxRate.value * out.requests.value == out.http5xx.value)
  }

  ghost predicate AnswersLatency(out: PublicPoint, ps: seq<SeriesPoint>) {
    && IsSum(out.latencyRequests, BusyRequests(ps))
    && (out.latency.Some? <==> out.latencyRequests.Some?)
    && (out.latency.Some? ==> out.latency.value * out.latencyRequests.value == Sum(BusyTime(ps)))
  }

  ghost predicate AnswersGauges(out: PublicPoint, ps: seq<SeriesPoint>) {
    && IsMean(out.processCpu, Given(ps, (p: SeriesPoint) => p.processCpu))
    && IsMean(out.runtimeMemory, Given(ps, (p: SeriesPoint) => p.heapUsed))
    && IsMean(out.hostCpu, Given(ps, (p: SeriesPoint) => p.hostCpu))
    && IsMean(out.hostMemory, Given(ps, (p: SeriesPoint) => p.memoryUsage))
    && IsMean(out.hostDisk, Given(ps, (p: SeriesPoint) => p.diskUsage))
  }

  lemma {:induction false} CountingIsCounted(ps: seq<SeriesPoint>)
    ensures Counting(ps) == CountedPoints(ps) && forall p :: p in Counting(ps) ==> p.requests.Some?
  {
    if ps != [] {
      CountingIsCounted(Init(ps));
      assert Counting(Init(ps)) + [] == Counting(Init(ps));
    }
  }

  lemma {:induction false} ErrorsOfSlot(b: Bucket)
    requires b.members != []
    ensures AnswersErrors(PublicOf(b), Counting(b.members))
  {
    hide Collapse, Given, PairingOf, WeightsOf, TallyOf;
    ErrorsNeedFullCoverage(b);
    CountingIsCounted(b.members);
    var counting := Counting(b.members);
    TallyIsGiven(counting, Http4xx, (p: SeriesPoint) => p.http4xx);
    TallyIsGiven(counting, Http5xx, (p: SeriesPoint) => p.http5xx);
    RateMeans(PublicOf(b).http5xx, Collapse(b).requests);
  }

  lemma {:induction false} RateMeans(errors: Option<real>, requests: Option<real>)
    ensures RateOf(errors, requests).Some? <==> errors.Some? && requests.Some? && requests.value > 0.0
    ensures RateOf(errors, requests).Some? ==> RateOf(errors, requests).value * requests.value == errors.value
  {
  }

  lemma {:induction false} LatencyOfSlot(b: Bucket)
    requires b.members != []
    ensures AnswersLatency(PublicOf(b), b.members)
  {
    hide SumsOf, IdentityOf, PairingOf, BusyRequests, BusyTime, WeightsOf, RateOf, Sum;
    WeightsAreBusy(b.members);
    LatencyIsWeighted(b);
  }

  /** The public point of a slot answers for its points. */
  lemma {:induction false} SlotAnswers(b: Bucket)
    requires b.members != []
    ensures Answers(PublicOf(b), b.members) && PublicOf(b).ts == b.start
  {
    hide AnswersErrors, AnswersLatency, Collapse, Given, PairingOf, WeightsOf, IsMean, IsSum, RateOf;
    ErrorsOfSlot(b);
    LatencyOfSlot(b);
    CollapseSummarizes(b);
  }

  // ---------- Slots and the last observation ----------

  /** A point with any value that the public answer shows. */
  predicate Shows(p: SeriesPoint) {
    || p.requests.Some? || p.latency.Some? || p.heapUsed.Some? || p.processCpu.Some?
    || p.hostCpu.Some? || p.memoryUsage.Some? || p.diskUsage.Some?
  }

  function Shown(ps: seq<SeriesPoint>): seq<SeriesPoint> {
    if ps == [] then [] else Shown(Init(ps)) + if Shows(Last(ps)) then [Last(ps)] else []
  }

  function Minutes(ps: seq<SeriesPoint>): (r: seq<int>)
    ensures |r| == |ps|
    ensures forall i :: 0 <= i < |ps| ==> r[i] == 60_000_000_000 * (ps[i].ts / 60_000_000_000)
  {
    seq(|ps|, i requires 0 <= i < |ps| => 60_000_000_000 * (ps[i].ts / 60_000_000_000))
  }

  /** The time of the last point that has requests or a latency. */
  ghost predicate LastHttp(at: Option<int>, ps: seq<SeriesPoint>) {
    if at.None? then forall p :: p in ps ==> p.requests.None? && p.latency.None?
    else
      exists i :: 0 <= i < |ps| && ps[i].ts == at.value && (ps[i].requests.Some? || ps[i].latency.Some?)
                  && forall j :: i < j < |ps| ==> ps[j].requests.None? && ps[j].latency.None?
  }

  lemma {:induction false} ShownIsUsable(ps: seq<SeriesPoint>)
    ensures Shown(ps) == UsablePoints(ps)
  {
    if ps != [] {
      ShownIsUsable(Init(ps));
      assert Shown(Init(ps)) + [] == Shown(Init(ps));
    }
  }

  lemma {:induction false} MinutesAreSlots(ps: seq<SeriesPoint>)
    ensures Minutes(ps) == Slots(ps, MINUTE, None)
  {
    forall i | 0 <= i < |ps| ensures Minutes(ps)[i] == SlotOf(ps[i].ts, MINUTE, None) {
      ClockBucketIsMultiple(ps[i].ts, MINUTE);
    }
  }

  lemma {:induction false} LatestIsLast(ps: seq<SeriesPoint>)
    ensures LastHttp(LatestHttp(ps), ps)
  {
    if ps != [] {
      var init, p := Init(ps), Last(ps);
      LatestIsLast(init);
      assert ps == init + [p];
      if !(p.requests.Some? || p.latency.Some?) {
        LastHttpStays(LatestHttp(init), init, p);
      } else {
        assert ps[|ps| - 1] == p;
      }
    }
  }

  lemma {:induction false} LastHttpStays(at: Option<int>, ps: seq<SeriesPoint>, p: SeriesPoint)
    requires LastHttp(at, ps) && p.requests.None? && p.latency.None?
    ensures LastHttp(at, ps + [p])
  {
    if at.Some? {
      var i :| 0 <= i < |ps| && ps[i].ts == at.value && (ps[i].requests.Some? || ps[i].latency.Some?)
               && forall j :: i < j < |ps| ==> ps[j].requests.None? && ps[j].latency.None?;
      assert (ps + [p])[i] == ps[i];
    }
  }

  ghost predicate HasMinute(points: seq<PublicPoint>, minute: int) {
    exists j :: 0 <= j < |points| && points[j].ts == minute
  }

  /** Time-sorted points make one public point for each minute in which a point shows anything. */
  lemma {:induction false} GroupsAreMinutes(ps: seq<SeriesPoint>)
    requires TimeSorted(ps)
    ensures
      var out, shown := Grouped(ps).points, Shown(ps);
      && (forall i, j :: 0 <= i < j < |out| ==> out[i].ts < out[j].ts)
      && (forall m :: HasMinute(out, m) <==> m in Minutes(shown))
      && (forall j :: 0 <= j < |out| ==> Answers(out[j], InSlot(shown, Minutes(shown), out[j].ts)))
    ensures LastHttp(Grouped(ps).latestHttpObservationAt, ps)
  {
    hide Answers, LastHttp, PublicOf, InSlot, UsablePoints, Slots, Buckets, LatestHttp;
    ShownIsUsable(ps);
    LatestIsLast(ps);
    var shown := Shown(ps);
    MinutesAreSlots(shown);
    UsableSorted(ps);
    SortedPointsHaveSortedSlots(shown, MINUTE, None);
    OnePassIsGroupBy(shown, Slots(shown, MINUTE, None));
    var buckets, out := MinuteBuckets(ps), Grouped(ps).points;
    forall j | 0 <= j < |out|
      ensures out[j].ts == buckets[j].start && Answers(out[j], InSlot(shown, Minutes(shown), out[j].ts))
    {
      PublicAt(buckets, j);
      SlotAnswers(buckets[j]);
    }
    forall m ensures HasMinute(out, m) <==> m in Minutes(shown) {
      if m in Minutes(shown) {
        var i :| 0 <= i < |shown| && Minutes(shown)[i] == m;
        assert HasSlot(buckets, Minutes(shown)[i]);
        var j :| 0 <= j < |buckets| && buckets[j].start == m;
        assert out[j].ts == m;
      }
      if j :| 0 <= j < |out| && out[j].ts == m {
        assert buckets[j].start in Minutes(shown);
      }
    }
  }

  // ---------- Clearing the first retained point ----------

  /** The same point without its counters. */
  predicate Bare(q: SeriesPoint, p: SeriesPoint) {
    && q.requests.None? && q.http404.None? && q.http4xx.None? && q.http5xx.None? && q.latency.None?
    && q.(requests := p.requests, http404 := p.http404, http4xx := p.http4xx, http5xx := p.http5xx,
          latency := p.latency) == p
  }

  /** The first of the earliest points that are not expired. */
  ghost predicate IsEarliest(ps: seq<SeriesPoint>, i: nat, cutoff: int)
    requires i < |ps|
  {
    && cutoff <= ps[i].ts
    && forall j :: 0 <= j < |ps| && cutoff <= ps[j].ts ==> ps[i].ts < ps[j].ts || (ps[i].ts == ps[j].ts && i <= j)
  }

  /** The earliest retained point loses its counters, and so does the latest point if it is the first one. */
  lemma {:induction false} ClearingMeans(series: SeriesData, cutoff: int)
    ensures
      var out := Cleared(series, cutoff);
      && |out.points| == |series.points|
      && (forall i :: 0 <= i < |out.points| ==>
                        if IsEarliest(series.points, i, cutoff) then Bare(out.points[i], series.points[i])
                        else out.points[i] == series.points[i])
      && (if series.latestPoint.Some? && series.firstPollId != 0 && cutoff <= series.latestPoint.value.ts
             && series.latestPoint.value.pollId == series.firstPollId
          then out.latestPoint.Some? && Bare(out.latestPoint.value, series.latestPoint.value)
          else out.latestPoint == series.latestPoint)
      && out.(points := series.points, latestPoint := series.latestPoint) == series
  {
    hide CutoffIndex;
    CutoffIndexIsEarliest(series.points, cutoff);
  }

  /** In a retained read the latest point stays the last one. */
  lemma {:induction false} LatestStaysLast(start: int, end: int, ps: seq<SeriesPoint>)
    requires TimeSorted(ps) && (forall p :: p in ps ==> start <= p.ts && p.pollId != 0)
    requires forall i, j :: 0 <= i < j < |ps| ==> ps[i].pollId != ps[j].pollId
    ensures
      var out := Cleared(SeriesOf(start, end, ps), start);
      out.latestPoint == if ps == [] then None else Some(Last(out.points))
  {
    hide CutoffIndex;
    CutoffIndexIsEarliest(ps, start);
    if ps != [] {
      assert ps[0] in ps && Last(ps) in ps;
    }
  }

  // ---------- The whole answer ----------

  /** The last hour, but nothing before the cutoff. */
  function AnswerStart(retention: Option<int>, now: int): int {
    var hour := now - 3_600_000_000_000;
    if retention.Some? && hour < retention.value then retention.value else hour
  }

  /** Clearing the first retained point changes nothing, since it is measured against nothing. */
  lemma {:induction false} AnswerPointsAreRetained(db: seq<Poll>, retention: Option<int>, now: int)
    requires Ordered(db)
    ensures AnswerPoints(db, retention, now) ==
            NativePoints(Retained(db, retention), AnswerStart(retention, now), now, ZERO_TIME)
  {
    hide Cleared, Points, From, Between, SeriesOf;
    var start := AnswerStart(retention, now);
    var c := ClampToRetention(now - HOUR, retention);
    assert c.start == start;
    if retention.Some? {
      CutoffReadsRetained(db, start, now, retention.value);
    }
    SeriesPoints(start, now, NativePoints(db, start, now, c.cutoff));
    if c.clamped {
      var ps := Views(Between(db, start, now + 1));
      UndeletedPoints(db, now, start);
      RetainedPoints(db, start, now, start, start);
      ClearingIsIdle(ps, start, now, start);
    }
  }

  /** The public answer: nothing if retention has cut the whole hour off, a refusal if more than 4096 polls lie in it,
      and otherwise the minutes of a native read of the retained polls. */
  lemma {:induction false} PublicAnswerMeans(db: seq<Poll>, retention: Option<int>, now: int)
    requires Ordered(db)
    ensures
      var start, answer := AnswerStart(retention, now), PublicAnswer(db, retention, now);
      var native := NativePoints(Retained(db, retention), start, now, ZERO_TIME);
      var shown := Shown(native);
      if start >= now then answer == Success(PublicSeries([], None))
      else if |Between(db, start, now + 1)| > 4096 then answer == Failure(PollLimitExceeded)
      else
        && answer.Success?
        && (forall i, j :: 0 <= i < j < |answer.value.points| ==> answer.value.points[i].ts < answer.value.points[j].ts)
        && (forall m :: HasMinute(answer.value.points, m) <==> m in Minutes(shown))
        && (forall j :: 0 <= j < |answer.value.points| ==>
                          Answers(answer.value.points[j], InSlot(shown, Minutes(shown), answer.value.points[j].ts)))
        && LastHttp(answer.value.latestHttpObservationAt, native)
  {
    hide Answers, LastHttp, Grouped, Cleared, NativePoints, InSlot, Shown, Retained, SeriesOf;
    var start := AnswerStart(retention, now);
    AnswerPointsAreRetained(db, retention, now);
    AnswerPointsSorted(db, retention, now);
    GroupsAreMinutes(AnswerPoints(db, retention, now));
  }
}
