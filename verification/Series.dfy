/** The counter-series engine: one pass over the sample rows of a window that turns cumulative
    counters into restart-aware deltas against a per-counter baseline. */
module Series {
  import opened Common
  import opened Polls

  // ---------- Data ----------

  /** The per-point values a chart shows: four counter deltas, then the gauges. */
  datatype Field =
    | Requests | Http404 | Http4xx | Http5xx
    | HeapUsed | ProcessCpu | HostCpu
    | MemoryUsed | MemoryTotal | MemoryUsage
    | DiskUsed | DiskTotal | DiskUsage

  predicate IsDelta(f: Field) {
    f.Requests? || f.Http404? || f.Http4xx? || f.Http5xx?
  }

  /** The cumulative counter behind a delta field. */
  function CounterOf(f: Field): Key
    requires IsDelta(f)
  {
    match f
    case Requests => HttpRequestsTotal
    case Http404 => Http404Total
    case Http4xx => Http4xxTotal
    case Http5xx => Http5xxTotal
  }

  /** A chart point; a value that is None is null. */
  datatype SeriesPoint = SeriesPoint(
    pollId: int,
    ts: int,
    run: Option<int>,
    requests: Option<real>,
    http404: Option<real>,
    http4xx: Option<real>,
    http5xx: Option<real>,
    latency: Option<real>,
    heapUsed: Option<real>,
    processCpu: Option<real>,
    hostCpu: Option<real>,
    memoryUsed: Option<real>,
    memoryTotal: Option<real>,
    memoryUsage: Option<real>,
    diskUsed: Option<real>,
    diskTotal: Option<real>,
    diskUsage: Option<real>,
    paired4xx: bool,
    paired5xx: bool,
    cpuUnit: string)
  {
    function Value(f: Field): Option<real> {
      match f
      case Requests => requests
      case Http404 => http404
      case Http4xx => http4xx
      case Http5xx => http5xx
      case HeapUsed => heapUsed
      case ProcessCpu => processCpu
      case HostCpu => hostCpu
      case MemoryUsed => memoryUsed
      case MemoryTotal => memoryTotal
      case MemoryUsage => memoryUsage
      case DiskUsed => diskUsed
      case DiskTotal => diskTotal
      case DiskUsage => diskUsage
    }
  }

  datatype DiskCurrent = DiskCurrent(used: real, total: real, usage: real)

  datatype SeriesData = SeriesData(
    start: int,
    end: int,
    points: seq<SeriesPoint>,
    firstPollId: int,
    latestPoint: Option<SeriesPoint>,
    currentHostDisk: Option<DiskCurrent>)

  datatype CounterValue = CounterValue(pollId: int, run: Option<int>, value: real)

  type Baseline = map<Key, CounterValue>

  // ---------- One poll against the baseline ----------

  function CounterDelta(p: Poll, previous: Baseline, k: Key): Option<real> {
    if !Carries(p, k) || k !in previous || previous[k].run != p.run then None
    else
      var delta := ValueOf(p, k) - previous[k].value;
      if delta < 0.0 then None else Some(delta)
  }

  predicate MatchingBaseline(previous: Baseline, a: Key, b: Key) {
    a in previous && b in previous && previous[a].pollId == previous[b].pollId
  }

  function GaugeValue(p: Poll, k: Key): Option<real> {
    if k in p.samples && p.samples[k].kind == Gauge then Some(p.samples[k].value) else None
  }

  function UsagePercentage(used: Option<real>, total: Option<real>): Option<real> {
    if used.None? || total.None? || used.value < 0.0 || total.value <= 0.0 || used.value > total.value then None
    else Some(used.value / total.value)
  }

  function RuntimeMemory(p: Poll): Option<real> {
    if GaugeValue(p, RuntimeHeapUsed).Some? then GaugeValue(p, RuntimeHeapUsed) else GaugeValue(p, JvmHeapUsed)
  }

  function Latency(p: Poll, previous: Baseline): Option<real> {
    var requests := CounterDelta(p, previous, HttpRequestsTotal);
    var time := CounterDelta(p, previous, HttpRequestTimeTotal);
    if requests.Some? && time.Some? && requests.value > 0.0
       && MatchingBaseline(previous, HttpRequestsTotal, HttpRequestTimeTotal)
    then Some(time.value / requests.value)
    else None
  }

  predicate Paired(p: Poll, previous: Baseline, k: Key) {
    && CounterDelta(p, previous, HttpRequestsTotal).Some?
    && CounterDelta(p, previous, k).Some?
    && MatchingBaseline(previous, HttpRequestsTotal, k)
  }

  function PointOf(p: Poll, previous: Baseline): SeriesPoint {
    var memoryUsed, memoryTotal := GaugeValue(p, HostMemoryUsed), GaugeValue(p, HostMemoryTotal);
    var diskUsed, diskTotal := GaugeValue(p, HostDiskUsed), GaugeValue(p, HostDiskTotal);
    SeriesPoint(
      p.id, p.ts, p.run,
      CounterDelta(p, previous, HttpRequestsTotal),
      CounterDelta(p, previous, Http404Total),
      CounterDelta(p, previous, Http4xxTotal),
      CounterDelta(p, previous, Http5xxTotal),
      Latency(p, previous),
      RuntimeMemory(p),
      GaugeValue(p, ProcessCpuUsage),
      GaugeValue(p, HostCpuUsage),
      memoryUsed, memoryTotal, UsagePercentage(memoryUsed, memoryTotal),
      diskUsed, diskTotal, UsagePercentage(diskUsed, diskTotal),
      Paired(p, previous, Http4xxTotal),
      Paired(p, previous, Http5xxTotal),
      if ProcessCpuUsage in p.samples then p.samples[ProcessCpuUsage].units else "")
  }

  function Updated(p: Poll, previous: Baseline): Baseline {
    previous + map k | k in p.samples && Carries(p, k) :: CounterValue(p.id, p.run, ValueOf(p, k))
  }

  // ---------- The fold ----------

  function State(ps: seq<Poll>, previous: Baseline): Baseline {
    if ps == [] then previous
    else Updated(Last(ps), State(Init(ps), previous))
  }

  function Points(ps: seq<Poll>, previous: Baseline): (r: seq<SeriesPoint>)
    ensures |r| == |ps|
  {
    if ps == [] then []
    else
      var init, p := Init(ps), Last(ps);
      Points(init, previous) + [PointOf(p, State(init, previous))]
  }

  /** The baseline query: per counter, the latest stored value in [cutoff, before). */
  function BaselineOf(db: seq<Poll>, before: int, cutoff: int): Baseline {
    map k | k in COUNTER_KEYS && LastCarrier(Between(db, cutoff, before), k).Some?
      :: Entry(LastCarrier(Between(db, cutoff, before), k).value, k)
  }

  function Entry(p: Poll, k: Key): CounterValue
    requires Carries(p, k)
  {
    CounterValue(p.id, p.run, ValueOf(p, k))
  }

  function DiskOf(point: SeriesPoint): Option<DiskCurrent> {
    if point.diskUsed.None? || point.diskTotal.None? || point.diskUsage.None? then None
    else Some(DiskCurrent(point.diskUsed.value, point.diskTotal.value, point.diskUsage.value))
  }

  /** What a read over [start, end] returns for a list of points. */
  function SeriesOf(start: int, end: int, points: seq<SeriesPoint>): SeriesData {
    if points == [] then SeriesData(start, end, [], 0, None, None)
    else
      var last := Last(points);
      SeriesData(start, end, points, points[0].pollId, Some(last), DiskOf(last))
  }

  // ---------- Laws of the fold ----------

  lemma {:induction false} PointAt(ps: seq<Poll>, previous: Baseline, i: nat)
    requires i < |ps|
    ensures Points(ps, previous)[i] == PointOf(ps[i], State(ps[..i], previous))
  {
    hide PointOf, Updated;
    var init := Init(ps);
    if i < |ps| - 1 {
      PointAt(init, previous, i);
      assert init[..i] == ps[..i];
    }
  }

  lemma {:induction false} StateConcat(a: seq<Poll>, b: seq<Poll>, previous: Baseline)
    ensures State(a + b, previous) == State(b, State(a, previous))
  {
    hide Updated;
    if b == [] {
      assert a + b == a;
    } else {
      StateConcat(a, Init(b), previous);
      InitOfConcat(a, b);
    }
  }

  lemma {:induction false} PointsConcat(a: seq<Poll>, b: seq<Poll>, previous: Baseline)
    ensures Points(a + b, previous) == Points(a, previous) + Points(b, State(a, previous))
  {
    hide PointOf, Updated;
    if b == [] {
      assert a + b == a;
    } else {
      PointsConcat(a, Init(b), previous);
      StateConcat(a, Init(b), previous);
      InitOfConcat(a, b);
    }
  }

  /** Deltas look at the five counters only, so other baseline entries cannot matter. */
  ghost predicate AgreeOnCounters(x: Baseline, y: Baseline) {
    forall k :: k in COUNTER_KEYS ==> (k in x <==> k in y) && (k in x ==> x[k] == y[k])
  }

  lemma {:induction false} FoldCongruence(ps: seq<Poll>, x: Baseline, y: Baseline)
    requires AgreeOnCounters(x, y)
    ensures AgreeOnCounters(State(ps, x), State(ps, y))
    ensures Points(ps, x) == Points(ps, y)
  {
    if ps != [] {
      var init, p := Init(ps), Last(ps);
      FoldCongruence(init, x, y);
      PointCongruence(p, State(init, x), State(init, y));
    }
  }

  lemma {:induction false} PointCongruence(p: Poll, x: Baseline, y: Baseline)
    requires AgreeOnCounters(x, y)
    ensures PointOf(p, x) == PointOf(p, y)
  {
    forall k | k in COUNTER_KEYS ensures CounterDelta(p, x, k) == CounterDelta(p, y, k) {}
  }

  /** The fold state of a counter is its last carrier, or the starting baseline if none was met. */
  lemma {:induction false} StateIsLastCarrier(ps: seq<Poll>, previous: Baseline, k: Key)
    ensures k in State(ps, previous) <==> LastCarrier(ps, k).Some? || k in previous
    ensures k in State(ps, previous) ==>
              State(ps, previous)[k] ==
                if LastCarrier(ps, k).Some? then Entry(LastCarrier(ps, k).value, k) else previous[k]
  {
    if ps != [] {
      StateIsLastCarrier(Init(ps), previous, k);
    }
  }

  lemma {:induction false} ViewCarries(p: Poll, k: Key)
    requires IsSeriesKey(k)
    ensures Carries(View(p), k) == Carries(p, k)
    ensures Carries(p, k) ==> Relevant(p) && Entry(View(p), k) == Entry(p, k)
  {
  }

  /** Dropping irrelevant polls and foreign samples hides no carrier of a series key. */
  lemma {:induction false} ViewsKeepCarriers(db: seq<Poll>, k: Key)
    requires IsSeriesKey(k)
    ensures LastCarrier(Views(db), k).Some? <==> LastCarrier(db, k).Some?
    ensures LastCarrier(db, k).Some? ==>
              Entry(LastCarrier(Views(db), k).value, k) == Entry(LastCarrier(db, k).value, k)
  {
    hide View, Relevant, Carries, Entry;
    if db != [] {
      ViewsKeepCarriers(Init(db), k);
      ViewCarries(Last(db), k);
      if Relevant(Last(db)) {
        InitOfAppend(Views(Init(db)), View(Last(db)));
      }
    }
  }

  /** Folding the window [lo, hi) from the baseline at lo gives the baseline at hi. */
  lemma {:induction false} FoldReachesBaseline(db: seq<Poll>, cutoff: int, lo: int, hi: int)
    requires Ordered(db) && cutoff <= lo <= hi
    ensures AgreeOnCounters(State(Views(Between(db, lo, hi)), BaselineOf(db, lo, cutoff)), BaselineOf(db, hi, cutoff))
  {
    forall k | k in COUNTER_KEYS
      ensures
        var s, b := State(Views(Between(db, lo, hi)), BaselineOf(db, lo, cutoff)), BaselineOf(db, hi, cutoff);
        (k in s <==> k in b) && (k in s ==> s[k] == b[k])
    {
      StateIsLastCarrier(Views(Between(db, lo, hi)), BaselineOf(db, lo, cutoff), k);
      ViewsKeepCarriers(Between(db, lo, hi), k);
      BetweenSplit(db, cutoff, lo, hi);
      LastCarrierConcat(Between(db, cutoff, lo), Between(db, lo, hi), k);
    }
  }
}
