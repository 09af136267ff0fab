/** What the continuity of Caddy runs gives the charts. */
module CaddyCharts {
  import opened Common
  import opened Polls
  import opened CaddyPopulation
  import opened CaddyTotals
  import opened CaddyCollector
  import opened CaddyRuns
  import opened CaddyContinuity
  import opened Database
  import opened Series
  import SeriesReads
  import opened SeriesLaws
  import SamplingTheorem
  import SamplingLatency
  import opened Dashboard
  import SamplingExact
  import Downsample

  // ---------- Two polls of a run ----------

  /** Between two polls of a run each counter moves by the sum of what its tuples gained, which is never negative. */
  lemma {:induction false} CountersGain(b: Books, x: PollRow, y: PollRow, k: Key)
    requires Kept(b) && x in b.db.rows && y in b.db.rows && Before(x.poll, y.poll) && k in COUNTER_KEYS
    requires x.poll.run.Some? && x.poll.run == y.poll.run
    ensures x.poll.id in b.seen && y.poll.id in b.seen
    ensures Carries(x.poll, k) && Carries(y.poll, k)
    ensures
      var gain := Increase(b.seen[x.poll.id].tuples, b.seen[y.poll.id].tuples, k);
      ValueOf(y.poll, k) - ValueOf(x.poll, k) == gain && gain >= 0.0
  {
    hide InTimeOrder, Increase, Total;
    assert Fits(b, x) && Fits(b, y) && Successive(b.seen, x, y);
    var p, q := b.seen[x.poll.id], b.seen[y.poll.id];
    GrowthHasKeys(p, q);
    CountersMoveByTuples(p.tuples, q.tuples, k);
    GrowthOnlyGains(p.tuples, q.tuples, k, b.printable);
  }

  lemma {:induction false} GrowthHasKeys(p: Population, q: Population)
    requires Continues(p, q)
    ensures p.tuples.Keys <= q.tuples.Keys
  {
  }

  lemma {:induction false} RowOfPoll(rows: seq<PollRow>, p: Poll) returns (row: PollRow)
    requires p in PollsOf(rows)
    ensures row in rows && row.poll == p
  {
    var i :| 0 <= i < |rows| && PollsOf(rows)[i] == p;
    row := rows[i];
  }

  /** Polls of a run carry every counter, failed polls carry nothing. */
  lemma {:induction false} PollCarries(b: Books, p: Poll, k: Key)
    requires Kept(b) && p in PollsOf(b.db.rows) && k in COUNTER_KEYS
    ensures if p.run.Some? then Carries(p, k) else p.samples == map[]
  {
    hide InTimeOrder, Complete;
    var row := RowOfPoll(b.db.rows, p);
    assert Fits(b, row);
  }

  lemma {:induction false} RunsAscend(b: Books, p: Poll, q: Poll)
    requires Kept(b) && p in PollsOf(b.db.rows) && q in PollsOf(b.db.rows)
    requires p.run.Some? && q.run.Some? && Before(p, q)
    ensures p.run.value <= q.run.value
  {
    hide InTimeOrder, Fits;
    var x := RowOfPoll(b.db.rows, p);
    var y := RowOfPoll(b.db.rows, q);
    assert Successive(b.seen, x, y);
  }

  lemma {:induction false} ValuesAscend(b: Books, p: Poll, q: Poll, k: Key)
    requires Kept(b) && p in PollsOf(b.db.rows) && q in PollsOf(b.db.rows) && k in COUNTER_KEYS
    requires p.run.Some? && p.run == q.run && Before(p, q)
    ensures Carries(p, k) && Carries(q, k) && ValueOf(p, k) <= ValueOf(q, k)
  {
    hide Kept, Increase;
    var x := RowOfPoll(b.db.rows, p);
    var y := RowOfPoll(b.db.rows, q);
    CountersGain(b, x, y, k);
  }

  // ---------- Every window of a Caddy history is steady ----------

  lemma {:induction false} WindowRunsAscend(b: Books, ps: seq<Poll>, i: nat, j: nat, l: nat)
    requires Kept(b) && Ordered(ps) && forall p :: p in ps ==> p in PollsOf(b.db.rows)
    requires i < j < l < |ps| && ps[i].run.Some? && ps[i].run == ps[l].run && ps[j].run.Some?
    ensures ps[j].run == ps[i].run
  {
    hide Kept, Ordered;
    OrderedAt(ps, i, j);
    OrderedAt(ps, j, l);
    assert ps[i] in ps && ps[j] in ps && ps[l] in ps;
    RunsAscend(b, ps[i], ps[j]);
    RunsAscend(b, ps[j], ps[l]);
  }

  lemma {:induction false} WindowValuesAscend(b: Books, ps: seq<Poll>, k: Key, i: nat, j: nat)
    requires Kept(b) && Ordered(ps) && k in COUNTER_KEYS && forall p :: p in ps ==> p in PollsOf(b.db.rows)
    requires i < j < |ps| && ps[i].run.Some? && ps[i].run == ps[j].run
    ensures Carries(ps[i], k) && Carries(ps[j], k) && ValueOf(ps[i], k) <= ValueOf(ps[j], k)
  {
    hide Kept, Ordered;
    OrderedAt(ps, i, j);
    assert ps[i] in ps && ps[j] in ps;
    ValuesAscend(b, ps[i], ps[j], k);
  }

  lemma {:induction false} WindowsAreSteady(b: Books, ps: seq<Poll>, k: Key)
    requires Kept(b) && Ordered(ps) && k in COUNTER_KEYS && forall p :: p in ps ==> p in PollsOf(b.db.rows)
    ensures SamplingTheorem.SteadyWindow(ps, k)
  {
    hide Kept, Ordered;
    forall i | 0 <= i < |ps| ensures if ps[i].run.Some? then Carries(ps[i], k) else !Relevant(ps[i]) {
      assert ps[i] in ps;
      PollCarries(b, ps[i], k);
    }
    forall i, j, l | 0 <= i < j < l < |ps| && ps[i].run.Some? && ps[i].run == ps[l].run && ps[j].run.Some?
      ensures ps[j].run == ps[i].run
    {
      WindowRunsAscend(b, ps, i, j, l);
    }
    forall i, j | 0 <= i < j < |ps| && ps[i].run.Some? && ps[i].run == ps[j].run
      ensures Carries(ps[i], k) && Carries(ps[j], k) && ValueOf(ps[i], k) <= ValueOf(ps[j], k)
    {
      WindowValuesAscend(b, ps, k, i, j);
    }
  }

  lemma {:induction false} OrderedAt(ps: seq<Poll>, i: nat, j: nat)
    requires Ordered(ps) && i < j < |ps|
    ensures Before(ps[i], ps[j])
  {
  }

  /** For every life of a Caddy target, every window, bucket and counter, the sampled dashboard chart aggregates to
      exactly the native one. */
  lemma {:induction false} CaddyChartsAreExact(settings: Settings, actions: seq<Action>, start: int, end: int,
                                               bucket: int,
                                               f: Field)
    requires PossibleRun(settings, actions) && IsDelta(f)
    ensures
      var db := PollsOf(Reached(settings, actions).db.rows);
      SamplingTheorem.SameChart(Downsample.Aggregated(NativeSeries(db, start, end), bucket).points,
                Downsample.Aggregated(DashboardResult(db, start, end, bucket), bucket).points, f)
  {
    hide Reached, PossibleRun, SamplingTheorem.SteadyWindow, SamplingTheorem.SameChart, NativeSeries, DashboardResult,
        Downsample.Aggregated;
    RunsAreSound(settings, actions);
    var b := BooksOf(Reached(settings, actions));
    var db := PollsOf(b.db.rows);
    KeptInOrder(b);
    BetweenOrdered(db, start, end + 1);
    BetweenContents(db, start, end + 1);
    WindowsAreSteady(b, Between(db, start, end + 1), CounterOf(f));
    SamplingTheorem.EndpointSamplingIsExact(db, start, end, bucket, f);
  }

  /** The latency of a sampled Caddy chart is never below the native one, and the same exactly if every poll is read or
      no bucket and run gains requests and, at other polls, time without requests. */
  lemma {:induction false} CaddyLatencyIsExactIff(settings: Settings, actions: seq<Action>, start: int, end: int,
                                                  bucket: int)
    requires PossibleRun(settings, actions)
    ensures
      var db := PollsOf(Reached(settings, actions).db.rows);
      var native, sampled := Downsample.Aggregated(NativeSeries(db, start, end), bucket).points,
          Downsample.Aggregated(DashboardResult(db, start, end, bucket), bucket).points;
      && SamplingLatency.NoLatencyLower(native, sampled)
      && (SamplingLatency.SameLatencies(native, sampled) <==>
            || ChartIds(db, start, end, bucket).None?
            || SamplingLatency.PlainTraffic(Between(db, start, end + 1), bucket, start))
  {
    hide Reached, PossibleRun, SamplingTheorem.SteadyWindow, SamplingLatency.SameLatencies, NativeSeries,
         DashboardResult, Downsample.Aggregated, SamplingLatency.PlainTraffic, SamplingLatency.NoLatencyLower;
    RunsAreSound(settings, actions);
    var b := BooksOf(Reached(settings, actions));
    var db := PollsOf(b.db.rows);
    KeptInOrder(b);
    BetweenOrdered(db, start, end + 1);
    BetweenContents(db, start, end + 1);
    WindowsAreSteady(b, Between(db, start, end + 1), HttpRequestsTotal);
    WindowsAreSteady(b, Between(db, start, end + 1), HttpRequestTimeTotal);
    SamplingLatency.EndpointLatencyIsExactIff(db, start, end, bucket);
  }

  // ---------- Deltas are tuple gains ----------

  /** The latest poll before position m that belongs to a run. */
  function PreviousSuccess(ps: seq<Poll>, m: nat): (j: int)
    requires m <= |ps|
    ensures -1 <= j < m && (j >= 0 ==> ps[j].run.Some?) && forall i :: j < i < m ==> ps[i].run.None?
  {
    SamplingExact.LastRun(ps, m)
  }

  lemma {:induction false} CarrierIsPreviousSuccess(b: Books, m: nat, k: Key)
    requires Kept(b) && m <= |b.db.rows| && k in COUNTER_KEYS
    ensures
      var ps := PollsOf(b.db.rows);
      var j := PreviousSuccess(ps, m);
      LastCarrier(ps[..m], k) == if j < 0 then None else Some(ps[j])
  {
    hide Kept, Carries, LastCarrier, PreviousSuccess;
    var ps := PollsOf(b.db.rows);
    forall i | 0 <= i < |ps| ensures ps[i].run.Some? <==> Carries(ps[i], k) {
      assert ps[i] in ps;
      PollCarries(b, ps[i], k);
      BarePolls(ps[i], k);
    }
    CarrierIsLastRun(ps, m, k);
  }

  lemma {:induction false} CarrierIsLastRun(ps: seq<Poll>, m: nat, k: Key)
    requires m <= |ps| && forall i :: 0 <= i < |ps| ==> (ps[i].run.Some? <==> Carries(ps[i], k))
    ensures
      var j := PreviousSuccess(ps, m);
      LastCarrier(ps[..m], k) == if j < 0 then None else Some(ps[j])
  {
    hide Carries;
    if m > 0 {
      InitOfPrefix(ps, m - 1);
      CarrierIsLastRun(ps, m - 1, k);
    }
  }

  lemma {:induction false} BarePolls(p: Poll, k: Key)
    ensures p.samples == map[] ==> !Carries(p, k)
  {
  }

  /** A point with all five counters measured against the population of one earlier poll. */
  ghost predicate ShowsGains(point: SeriesPoint, old': Tuples, new': Tuples) {
    var requests, time := Increase(old', new', HttpRequestsTotal), Increase(old', new', HttpRequestTimeTotal);
    && requests >= 0.0 && time >= 0.0
    && point.requests == Some(requests)
    && point.http404 == Some(Increase(old', new', Http404Total))
    && point.http4xx == Some(Increase(old', new', Http4xxTotal))
    && point.http5xx == Some(Increase(old', new', Http5xxTotal))
    && point.latency == (if requests > 0.0 then Some(time / requests) else None)
    && point.paired4xx && point.paired5xx
  }

  lemma {:induction false} GainAgainst(b: Books, x: PollRow, y: PollRow, base: Baseline, k: Key)
    requires Kept(b) && x in b.db.rows && y in b.db.rows && Before(x.poll, y.poll) && k in COUNTER_KEYS
    requires x.poll.run.Some? && x.poll.run == y.poll.run && Carries(x.poll, k)
    requires k in base && base[k] == Entry(x.poll, k)
    ensures x.poll.id in b.seen && y.poll.id in b.seen
    ensures
      var gain := Increase(b.seen[x.poll.id].tuples, b.seen[y.poll.id].tuples, k);
      CounterDelta(View(y.poll), base, k) == Some(gain) && gain >= 0.0
  {
    hide Kept, Increase;
    CountersGain(b, x, y, k);
    ViewCarries(y.poll, k);
  }

  lemma {:induction false} PointShowsGains(b: Books, x: PollRow, y: PollRow, base: Baseline)
    requires Kept(b) && x in b.db.rows && y in b.db.rows && Before(x.poll, y.poll)
    requires x.poll.run.Some? && x.poll.run == y.poll.run
    requires forall k :: k in COUNTER_KEYS ==> Carries(x.poll, k) && k in base && base[k] == Entry(x.poll, k)
    ensures x.poll.id in b.seen && y.poll.id in b.seen
    ensures ShowsGains(PointOf(View(y.poll), base), b.seen[x.poll.id].tuples, b.seen[y.poll.id].tuples)
  {
    hide Kept, Increase, CounterDelta, View;
    GainAgainst(b, x, y, base, HttpRequestsTotal);
    GainAgainst(b, x, y, base, Http404Total);
    GainAgainst(b, x, y, base, Http4xxTotal);
    GainAgainst(b, x, y, base, Http5xxTotal);
    GainAgainst(b, x, y, base, HttpRequestTimeTotal);
  }

  lemma {:induction false} RowsBefore(rows: seq<PollRow>, j: nat, m: nat)
    requires InTimeOrder(rows) && j < m < |rows|
    ensures Before(rows[j].poll, rows[m].poll)
  {
    assert PollsOf(rows)[j] == rows[j].poll && PollsOf(rows)[m] == rows[m].poll;
  }

  lemma {:induction false} LaterPointShowsGains(b: Books, j: nat, m: nat)
    requires Kept(b) && j < m < |b.db.rows| && b.db.rows[j].poll.run.Some?
    requires b.db.rows[j].poll.run == b.db.rows[m].poll.run
    requires PreviousSuccess(PollsOf(b.db.rows), m) == j
    ensures
      var x, y := b.db.rows[j], b.db.rows[m];
      && x.poll.id in b.seen && y.poll.id in b.seen && Relevant(y.poll)
      && ShowsGains(PointOf(View(y.poll), History(PollsOf(b.db.rows)[..m])),
                    b.seen[x.poll.id].tuples, b.seen[y.poll.id].tuples)
  {
    hide Kept, ShowsGains, PointOf, View;
    var ps := PollsOf(b.db.rows);
    var x, y := b.db.rows[j], b.db.rows[m];
    KeptInOrder(b);
    RowsBefore(b.db.rows, j, m);
    assert ps[j] in ps && ps[m] in ps && ps[j] == x.poll && ps[m] == y.poll;
    var base := History(ps[..m]);
    forall k | k in COUNTER_KEYS ensures Carries(x.poll, k) && k in base && base[k] == Entry(x.poll, k) {
      CarrierIsPreviousSuccess(b, m, k);
      PollCarries(b, ps[j], k);
    }
    PollCarries(b, ps[m], HttpRequestsTotal);
    assert Relevant(y.poll) by { ViewCarries(y.poll, HttpRequestsTotal); }
    PointShowsGains(b, x, y, base);
  }

  /** For every life of a Caddy target and every window: a poll whose latest successful predecessor is of its run shows,
      in the native series, all five deltas, each the sum of what the tuples gained between those two polls. */
  lemma {:induction false} DeltasAreTupleGains(settings: Settings, actions: seq<Action>, start: int, end: int, m: nat)
    requires PossibleRun(settings, actions)
    requires
      var rows := Reached(settings, actions).db.rows;
      && m < |rows| && start <= rows[m].poll.ts <= end
      && PreviousSuccess(PollsOf(rows), m) >= 0
      && rows[PreviousSuccess(PollsOf(rows), m)].poll.run == rows[m].poll.run
    ensures
      var w := Reached(settings, actions);
      var db := PollsOf(w.db.rows);
      var x, y := db[PreviousSuccess(db, m)], db[m];
      var i := |Views(Between(db[..m], start, end + 1))|;
      && x.id in w.seen && y.id in w.seen
      && i < |SeriesReads.NativePoints(db, start, end, SeriesReads.ZERO_TIME)|
      && ShowsGains(SeriesReads.NativePoints(db, start, end, SeriesReads.ZERO_TIME)[i], w.seen[x.id].tuples,
                    w.seen[y.id].tuples)
  {
    hide Reached, PossibleRun, ShowsGains, SeriesReads.NativePoints, Kept, Views, Between, Relevant;
    RunsAreSound(settings, actions);
    var w := Reached(settings, actions);
    var b := BooksOf(w);
    var db := PollsOf(w.db.rows);
    LaterPointShowsGains(b, PreviousSuccess(db, m), m);
    KeptInOrder(b);
    NativePointIsLocal(db, start, end, m);
  }

  /** A point that measures none of the five counters. */
  predicate ShowsNoDelta(point: SeriesPoint) {
    && point.requests.None? && point.http404.None? && point.http4xx.None? && point.http5xx.None?
    && point.latency.None?
  }

  lemma {:induction false} NoDeltaAgainst(p: Poll, base: Baseline)
    requires forall k :: k in COUNTER_KEYS && k in base ==> base[k].run != p.run
    ensures ShowsNoDelta(PointOf(p, base))
  {
    hide Carries, ValueOf;
    assert forall k :: k in COUNTER_KEYS ==> CounterDelta(p, base, k).None?;
  }

  lemma {:induction false} FirstPointShowsNone(b: Books, m: nat)
    requires Kept(b) && m < |b.db.rows| && b.db.rows[m].poll.run.Some?
    requires
      var j := PreviousSuccess(PollsOf(b.db.rows), m);
      j < 0 || b.db.rows[j].poll.run != b.db.rows[m].poll.run
    ensures Relevant(b.db.rows[m].poll)
    ensures ShowsNoDelta(PointOf(View(b.db.rows[m].poll), History(PollsOf(b.db.rows)[..m])))
  {
    hide Kept, ShowsNoDelta, PointOf, Carries, Relevant, PreviousSuccess, LastCarrier;
    var ps := PollsOf(b.db.rows);
    assert ps[m] in ps && ps[m] == b.db.rows[m].poll;
    PollCarries(b, ps[m], HttpRequestsTotal);
    ViewCarries(ps[m], HttpRequestsTotal);
    var base := History(ps[..m]);
    forall k | k in COUNTER_KEYS && k in base ensures base[k].run != View(ps[m]).run {
      CarrierIsPreviousSuccess(b, m, k);
    }
    NoDeltaAgainst(View(ps[m]), base);
  }

  /** For every life of a Caddy target and every window: a successful poll without a successful predecessor, or with one
      of another run, shows no delta at all. */
  lemma {:induction false} RunBoundaryShowsNone(settings: Settings, actions: seq<Action>, start: int, end: int, m: nat)
    requires PossibleRun(settings, actions) && m < |Reached(settings, actions).db.rows|
    requires
      var rows := Reached(settings, actions).db.rows;
      var j := PreviousSuccess(PollsOf(rows), m);
      && start <= rows[m].poll.ts <= end && rows[m].poll.run.Some?
      && (j < 0 || rows[j].poll.run != rows[m].poll.run)
    ensures
      var db := PollsOf(Reached(settings, actions).db.rows);
      var i := |Views(Between(db[..m], start, end + 1))|;
      && i < |SeriesReads.NativePoints(db, start, end, SeriesReads.ZERO_TIME)|
      && ShowsNoDelta(SeriesReads.NativePoints(db, start, end, SeriesReads.ZERO_TIME)[i])
  {
    hide Reached, PossibleRun, ShowsNoDelta, SeriesReads.NativePoints, Kept, Views, Between, Relevant, PreviousSuccess;
    RunsAreSound(settings, actions);
    var b := BooksOf(Reached(settings, actions));
    FirstPointShowsNone(b, m);
    KeptInOrder(b);
    NativePointIsLocal(PollsOf(b.db.rows), start, end, m);
  }
}
