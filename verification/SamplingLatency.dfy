/** The sampled latency against the native one: what it may add, and when it adds nothing. */
module SamplingLatency {
  import opened Common
  import opened Polls
  import opened Series
  import opened SeriesReads
  import opened Downsample
  import opened DownsampleLaws
  import opened Dashboard
  import opened Sampling
  import opened SamplingExact
  import opened SamplingTheorem
  import opened SamplingIdle
  import SamplingLoss
  import SeriesLaws

  /** Both traffic counters are steady. */
  ghost predicate SteadyTraffic(ps: seq<Poll>) {
    SteadyWindow(ps, R) && SteadyWindow(ps, T)
  }

  // ---------- One point ----------

  function Weighed(w: Weights, r: Readings, p: Poll): Weights {
    Weights(w.weighted + GainValue(r.time, p, T) - IdleGain(r.requests, r.time, p),
            w.requests + GainValue(r.requests, p, R))
  }

  /** A point weighs in with the requests and, unless it is idle, the request time gained since another poll. */
  lemma {:induction false} WeighedAgainst(w: Weights, p: Poll, q: Poll, base: Baseline)
    requires Carries(p, R) && Carries(p, T) && Carries(q, R) && Carries(q, T)
    requires R in base && T in base && base[R] == Entry(q, R) && base[T] == Entry(q, T)
    requires q.run == p.run ==> ValueOf(q, R) <= ValueOf(p, R) && ValueOf(q, T) <= ValueOf(p, T)
    ensures AddWeightedLatency(w, PointOf(View(p), base)) ==
            Weighed(w, Readings(Some(Entry(q, R)), Some(Entry(q, T))), p)
  {
    hide View;
    PointLatency(View(p), base);
    ViewCarries(p, R);
    ViewCarries(p, T);
    GainIsCounterDelta(p, base, R);
    GainIsCounterDelta(p, base, T);
  }

  lemma {:induction false} PointLatency(p: Poll, base: Baseline)
    ensures PointOf(p, base).latency == Latency(p, base)
    ensures PointOf(p, base).requests == CounterDelta(p, base, R)
  {
  }

  /** The readings the first poll of a window is weighed against: the stored ones, or none if it has no latency. */
  ghost function WeighingFrom(p: Poll, base: Baseline): Readings {
    if Weighs(PointOf(View(p), base)) then Readings(Read(base, R), Read(base, T)) else Readings(None, None)
  }

  lemma {:induction false} WeighedFirst(w: Weights, p: Poll, base: Baseline, now: Baseline)
    requires Carries(p, R) && Carries(p, T) && Read(now, R) == Read(base, R) && Read(now, T) == Read(base, T)
    ensures AddWeightedLatency(w, PointOf(View(p), now)) == Weighed(w, WeighingFrom(p, base), p)
  {
    hide View;
    PointLatency(View(p), base);
    PointLatency(View(p), now);
    ViewCarries(p, R);
    ViewCarries(p, T);
    GainIsCounterDelta(p, base, R);
    GainIsCounterDelta(p, base, T);
  }

  // ---------- The readings of a window ----------

  /** The last selected position before n whose poll belongs to a run, or -1. */
  function LastPick(ps: seq<Poll>, picked: Option<set<int>>, n: nat): (q: int)
    requires n <= |ps|
    ensures -1 <= q < n && (q >= 0 ==> ps[q].run.Some? && Picks(picked, q))
    ensures forall j :: q < j < n && Picks(picked, j) ==> ps[j].run.None?
  {
    if n == 0 then -1
    else if ps[n - 1].run.Some? && Picks(picked, n - 1) then n - 1
    else LastPick(ps, picked, n - 1)
  }

  lemma {:induction false} ReadingIsLastPick(w: Window, picked: Option<set<int>>, r: Reading, k: Key, n: nat)
    requires n <= |w.ps| && forall i :: 0 <= i < |w.ps| ==> (w.ps[i].run.Some? <==> Carries(w.ps[i], k))
    ensures
      var q := LastPick(w.ps, picked, n);
      ReadingAt(w, picked, r, k, n) == if q < 0 then r else Some(Entry(w.ps[q], k))
  {
    hide Carries;
    if n > 0 {
      ReadingIsLastPick(w, picked, r, k, n - 1);
    }
  }

  /** The first position whose poll belongs to a run, or |ps|. */
  function FirstRun(ps: seq<Poll>): (m: nat)
    ensures m <= |ps| && (m < |ps| ==> ps[m].run.Some?) && forall j :: 0 <= j < m ==> ps[j].run.None?
  {
    if ps == [] then 0
    else if FirstRun(Init(ps)) < |ps| - 1 then FirstRun(Init(ps))
    else if Last(ps).run.Some? then |ps| - 1
    else |ps|
  }

  ghost function StartReadings(ps: seq<Poll>, base: Baseline): Readings {
    var m := FirstRun(ps);
    if m < |ps| then WeighingFrom(ps[m], base) else Readings(None, None)
  }

  // ---------- Slot weights are slot tallies ----------

  lemma {:induction false} WeightsAppend(points: seq<SeriesPoint>, p: SeriesPoint)
    ensures WeightsOf(points + [p]) == AddWeightedLatency(WeightsOf(points), p)
  {
    InitOfAppend(points, p);
  }

  /** What one more poll adds to the weights of a slot. */
  lemma {:induction false} SlotWeightsStep(ps: seq<Poll>, ids: Option<set<int>>, base: Baseline, d: int, start: int,
                                           slot: int)
    requires ps != []
    ensures
      var init, p := Init(ps), Last(ps);
      var before := WeightsOf(InSlot(PointsOf(init, ids, base), PointSlots(init, ids, base, d, start), slot));
      WeightsOf(InSlot(PointsOf(ps, ids, base), PointSlots(ps, ids, base, d, start), slot)) ==
        if Kept(p, ids) && SlotOf(p.ts, d, Some(start)) == slot
        then AddWeightedLatency(before, PointOf(View(p), State(Views(Chosen(init, ids)), base)))
        else before
  {
    hide SlotOf, View, PointOf, Relevant, InSlot, WeightsOf, AddWeightedLatency, Views, Chosen, PointsOf, PointSlots,
         State, Kept;
    var init, p := Init(ps), Last(ps);
    var points, slots := PointsOf(init, ids, base), PointSlots(init, ids, base, d, start);
    OneMorePoll(ps, ids, base, d, start);
    if Kept(p, ids) {
      var point := PointOf(View(p), State(Views(Chosen(init, ids)), base));
      SlotAppend(points, slots, point, SlotOf(p.ts, d, Some(start)), slot);
      WeightsAppend(InSlot(points, slots, slot), point);
    }
  }

  /** The baseline before the n-th poll holds the last selected run poll, or still the stored readings. */
  ghost predicate ReadsLastPick(ps: seq<Poll>, picked: Option<set<int>>, base: Baseline, now: Baseline, n: nat)
    requires n < |ps|
  {
    var q := LastPick(ps, picked, n);
    forall k :: k == R || k == T ==>
      && (ps[n].run.Some? ==> Carries(ps[n], k)) && (q >= 0 ==> Carries(ps[q], k))
      && Read(now, k) == if q < 0 then Read(base, k) else Some(Entry(ps[q], k))
  }

  /** How the n-th poll weighs, against the readings that the fold of its window has then. */
  lemma {:induction false} WeighedAt(ps: seq<Poll>, picked: Option<set<int>>, base: Baseline, now: Baseline, n: nat,
                                     w: Weights)
    requires SteadyTraffic(ps) && n < |ps| && ps[n].run.Some?
    requires FirstRun(ps) < |ps| ==> Picks(picked, FirstRun(ps))
    requires ReadsLastPick(ps, picked, base, now, n)
    ensures AddWeightedLatency(w, PointOf(View(ps[n]), now)) == Weighed(w, LastReadings(ps, picked, base, n), ps[n])
  {
    hide AddWeightedLatency, View, PointOf, GainValue, SteadyWindow, WeighingFrom, Entry, IdleGain;
    var q := LastPick(ps, picked, n);
    if q < 0 {
      assert FirstRun(ps) == n;
      WeighedFirst(w, ps[n], base, now);
    } else {
      if ps[q].run == ps[n].run {
        NoDropBetween(ps, q, n);
      }
      WeighedAgainst(w, ps[n], ps[q], now);
    }
  }

  /** The readings of the last selected run poll, or those at the start. */
  ghost function LastReadings(ps: seq<Poll>, picked: Option<set<int>>, base: Baseline, n: nat): Readings
    requires n <= |ps|
    requires LastPick(ps, picked, n) >= 0 ==>
               Carries(ps[LastPick(ps, picked, n)], R) && Carries(ps[LastPick(ps, picked, n)], T)
  {
    var q := LastPick(ps, picked, n);
    if q < 0 then StartReadings(ps, base) else Readings(Some(Entry(ps[q], R)), Some(Entry(ps[q], T)))
  }

  lemma {:induction false} NoDropBetween(ps: seq<Poll>, q: nat, n: nat)
    requires SteadyTraffic(ps) && q < n < |ps| && ps[q].run.Some? && ps[q].run == ps[n].run
    requires forall k :: k == R || k == T ==> Carries(ps[q], k) && Carries(ps[n], k)
    ensures ValueOf(ps[q], R) <= ValueOf(ps[n], R) && ValueOf(ps[q], T) <= ValueOf(ps[n], T)
  {
  }

  /** The weights are the tallies of request time, without the idle time, and of requests. */
  ghost predicate WeighsAsTallied(weights: Weights, w: Window, picked: Option<set<int>>, r: Readings, slot: int, n: nat)
    requires n <= |w.ps| == |w.slots|
  {
    weights == Weights(SlotTally(w, picked, r.time, T, slot, n).sum - SlotIdle(w, picked, r.requests, r.time, slot, n),
                       SlotTally(w, picked, r.requests, R, slot, n).sum)
  }

  lemma {:induction false} SumNext(t: Tally, r: Reading, p: Poll, k: Key)
    ensures AddSum(t, Gain(r, p, k)).sum == t.sum + GainValue(r, p, k)
  {
  }

  /** What one more selected poll adds to weights and tallies. */
  lemma {:induction false} TalliedNext(before: Weights, w: Window, picked: Option<set<int>>, r: Readings, slot: int,
                                       n: nat)
    requires n < |w.ps| == |w.slots| && WeighsAsTallied(before, w, picked, r, slot, n)
    ensures
      var readings := ReadingsAt(w, picked, r, n);
      WeighsAsTallied(if Picks(picked, n) && w.slots[n] == slot then Weighed(before, readings, w.ps[n]) else before,
                      w, picked, r, slot, n + 1)
  {
    hide IdleGain, Gain, GainValue, AddSum, ReadingAt;
    SumNext(SlotTally(w, picked, r.requests, R, slot, n), ReadingAt(w, picked, r.requests, R, n), w.ps[n], R);
    SumNext(SlotTally(w, picked, r.time, T, slot, n), ReadingAt(w, picked, r.time, T, n), w.ps[n], T);
  }

  lemma {:induction false} WeighedWithout(w: Weights, r: Readings, p: Poll)
    requires !Carries(p, R) && !Carries(p, T)
    ensures Weighed(w, r, p) == w
  {
  }

  /** One more poll keeps weights and tallies together. */
  lemma {:induction false} TalliedStep(ps: seq<Poll>, picked: Option<set<int>>, base: Baseline, now: Baseline, d: int,
                                       start: int, slot: int, n: nat, before: Weights)
    requires n < |ps| && SteadyTraffic(ps) && (FirstRun(ps) < |ps| ==> Picks(picked, FirstRun(ps)))
    requires ReadsLastPick(ps, picked, base, now, n)
    requires WeighsAsTallied(before, WindowOf(ps, d, start), picked, StartReadings(ps, base), slot, n)
    ensures
      var w := WindowOf(ps, d, start);
      WeighsAsTallied(
        if Picks(picked, n) && Relevant(ps[n]) && w.slots[n] == slot
        then AddWeightedLatency(before, PointOf(View(ps[n]), now)) else before,
        w, picked, StartReadings(ps, base), slot, n + 1)
  {
    hide SlotOf, View, PointOf, AddWeightedLatency, SteadyTraffic, Weighed, ReadingAt, Carries, WeighsAsTallied,
         StartReadings, ClockBucketStart, Entry, Relevant, ReadsLastPick;
    TrafficIsKept(ps, n);
    TalliedNext(before, WindowOf(ps, d, start), picked, StartReadings(ps, base), slot, n);
    if ps[n].run.Some? {
      WeighedAt(ps, picked, base, now, n, before);
      StartAt(ps, picked, base, d, start, n);
    } else {
      WeighedWithout(before, ReadingsAt(WindowOf(ps, d, start), picked, StartReadings(ps, base), n), ps[n]);
    }
  }

  /** The weights of a slot of chart points are the slot tallies of request time, without the idle time, and of
      requests. */
  lemma {:induction false} SlotWeights(ps: seq<Poll>, ids: Option<set<int>>, picked: Option<set<int>>, base: Baseline,
                                       d: int, start: int, slot: int, n: nat)
    requires n <= |ps| && SteadyTraffic(ps) && SamePicks(ps, ids, picked)
    requires FirstRun(ps) < |ps| ==> Picks(picked, FirstRun(ps))
    ensures
      WeighsAsTallied(
        WeightsOf(InSlot(PointsOf(ps[..n], ids, base), PointSlots(ps[..n], ids, base, d, start), slot)),
        WindowOf(ps, d, start), picked, StartReadings(ps, base), slot, n)
  {
    hide SlotOf, View, PointOf, InSlot, WeightsOf, AddWeightedLatency, Views, Chosen, PointsOf, PointSlots, State,
         SteadyTraffic, StartReadings, ClockBucketStart, Relevant, WeighsAsTallied, ReadsLastPick;
    if n == 0 {
      NoWeights(ids, base, d, start, slot);
      NothingTallied(ps, picked, base, d, start, slot);
    } else {
      SlotWeights(ps, ids, picked, base, d, start, slot, n - 1);
      InitOfPrefix(ps, n - 1);
      SlotWeightsStep(ps[..n], ids, base, d, start, slot);
      ReadingsAtPoll(ps, ids, picked, base, d, start, n - 1);
      var points, slots := PointsOf(ps[..n - 1], ids, base), PointSlots(ps[..n - 1], ids, base, d, start);
      TalliedStep(ps, picked, base, State(Views(Chosen(ps[..n - 1], ids)), base), d, start, slot, n - 1,
                  WeightsOf(InSlot(points, slots, slot)));
    }
  }

  lemma {:induction false} NothingTallied(ps: seq<Poll>, picked: Option<set<int>>, base: Baseline, d: int, start: int,
                                          slot: int)
    ensures WeighsAsTallied(Weights(0.0, 0.0), WindowOf(ps, d, start), picked, StartReadings(ps, base), slot, 0)
  {
  }

  lemma {:induction false} NoWeights(ids: Option<set<int>>, base: Baseline, d: int, start: int, slot: int)
    ensures WeightsOf(InSlot(PointsOf([], ids, base), PointSlots([], ids, base, d, start), slot)) == Weights(0.0, 0.0)
  {
  }

  lemma {:induction false} TrafficIsKept(ps: seq<Poll>, i: nat)
    requires SteadyTraffic(ps) && i < |ps|
    ensures ps[i].run.Some? <==> Relevant(ps[i])
    ensures ps[i].run.Some? <==> Carries(ps[i], R)
    ensures ps[i].run.Some? <==> Carries(ps[i], T)
  {
    ViewCarries(ps[i], R);
    ViewCarries(ps[i], T);
  }

  lemma {:induction false} TrafficCarries(ps: seq<Poll>, k: Key)
    requires SteadyTraffic(ps) && (k == R || k == T)
    ensures forall i :: 0 <= i < |ps| ==> (ps[i].run.Some? <==> Carries(ps[i], k))
  {
    hide SteadyTraffic, Relevant, Carries;
    forall i | 0 <= i < |ps| ensures ps[i].run.Some? <==> Carries(ps[i], k) {
      TrafficIsKept(ps, i);
    }
  }

  lemma {:induction false} ReadingsAtPoll(ps: seq<Poll>, ids: Option<set<int>>, picked: Option<set<int>>,
                                          base: Baseline, d: int, start: int, n: nat)
    requires n < |ps| && SteadyTraffic(ps) && SamePicks(ps, ids, picked)
    ensures ReadsLastPick(ps, picked, base, State(Views(Chosen(ps[..n], ids)), base), n)
  {
    hide State, Views, Chosen, Carries, SteadyTraffic, ReadingAt, Entry, ClockBucketStart, SlotOf;
    forall k | k == R || k == T
      ensures
        var q, now := LastPick(ps, picked, n), State(Views(Chosen(ps[..n], ids)), base);
        && (ps[n].run.Some? ==> Carries(ps[n], k)) && (q >= 0 ==> Carries(ps[q], k))
        && Read(now, k) == if q < 0 then Read(base, k) else Some(Entry(ps[q], k))
    {
      TrafficCarries(ps, k);
      ReadingIsLastPick(WindowOf(ps, d, start), picked, Read(base, k), k, n);
      FoldReads(Chosen(ps[..n], ids), base, k);
      ChosenReading(WindowOf(ps, d, start), ids, picked, Read(base, k), k, n);
    }
  }

  lemma {:induction false} ChosenReading(w: Window, ids: Option<set<int>>, picked: Option<set<int>>, r: Reading, k: Key,
                                         n: nat)
    requires n <= |w.ps| && SamePicks(w.ps, ids, picked)
    ensures After(Chosen(w.ps[..n], ids), r, k) == ReadingAt(w, picked, r, k, n)
  {
    hide Next, Total;
    if n > 0 {
      ChosenReading(w, ids, picked, r, k, n - 1);
      InitOfPrefix(w.ps, n - 1);
      ChosenStep(w.ps[..n], ids, r, k);
    }
  }

  /** The tallies of a window read what its points are weighed against. */
  lemma {:induction false} StartAt(ps: seq<Poll>, picked: Option<set<int>>, base: Baseline, d: int, start: int, n: nat)
    requires n < |ps| && SteadyTraffic(ps)
    ensures
      var q := LastPick(ps, picked, n);
      && (q >= 0 ==> Carries(ps[q], R) && Carries(ps[q], T))
      && ReadingsAt(WindowOf(ps, d, start), picked, StartReadings(ps, base), n) == LastReadings(ps, picked, base, n)
  {
    hide Carries, SteadyTraffic, ReadingAt, StartReadings, Entry, ClockBucketStart, SlotOf;
    TrafficCarries(ps, R);
    TrafficCarries(ps, T);
    var r := StartReadings(ps, base);
    ReadingIsLastPick(WindowOf(ps, d, start), picked, r.requests, R, n);
    ReadingIsLastPick(WindowOf(ps, d, start), picked, r.time, T, n);
  }

  // ---------- The theorem ----------

  lemma {:induction false} FirstRunIsPicked(ps: seq<Poll>, gs: seq<Group>)
    requires |gs| == |ps| && forall i :: 0 <= i < |ps| ==> gs[i].run == ps[i].run
    ensures FirstRun(ps) < |ps| ==> FirstRun(ps) in Ends(gs)
  {
    var m := FirstRun(ps);
    if m < |ps| {
      assert IsFirst(gs, m);
    }
  }

  lemma {:induction false} SumsAgree(w: Window, r: Reading, k: Key, slot: int)
    requires SteadyRuns(w, k)
    ensures SlotTally(w, None, r, k, slot, |w.ps|).sum == SlotTally(w, Some(Ends(w.gs)), r, k, slot, |w.ps|).sum
  {
    hide SteadyRuns, Ends;
    SizesMatch(w, k);
    SlotTalliesAgree(w, k, r, slot);
    TallyIsEmpty(w, None, r, k, slot, |w.ps|);
    TallyIsEmpty(w, Some(Ends(w.gs)), r, k, slot, |w.ps|);
  }

  lemma {:induction false} SizesMatch(w: Window, k: Key)
    requires SteadyRuns(w, k)
    ensures |w.ps| == |w.gs| == |w.slots| && forall i :: 0 <= i < |w.ps| ==> w.gs[i].run == w.ps[i].run
  {
  }

  lemma {:induction false} TrafficRunsSteady(ps: seq<Poll>, d: int, start: int)
    requires Ordered(ps) && SteadyTraffic(ps)
    ensures Steady(WindowOf(ps, d, start))
  {
    hide CarriedByRuns, SteadyWindow, RunsCarry, NeverDrops;
    SteadyWindowCarries(ps, R);
    SteadyWindowCarries(ps, T);
    WindowCarriedByRuns(ps, d, start, R);
    WindowCarriedByRuns(ps, d, start, T);
  }

  /** In every slot of the endpoint chart the requests weigh as in the native one, and the request time by exactly the
      hidden idle time more. */
  lemma {:induction false} SlotWeightsDiffer(ps: seq<Poll>, base: Baseline, d: int, start: int, slot: int)
    requires Ordered(ps) && SteadyTraffic(ps)
    ensures
      var native := WeightsOf(InSlot(PointsOf(ps, None, base), PointSlots(ps, None, base, d, start), slot));
      var ids := EndpointIds(ps, d);
      WeightsOf(InSlot(PointsOf(ps, ids, base), PointSlots(ps, ids, base, d, start), slot)) ==
      Weights(native.weighted + SlotHidden(WindowOf(ps, d, start), slot, |ps|), native.requests)
  {
    hide SteadyTraffic, SteadyRuns, WeightsOf, InSlot, PointsOf, PointSlots, SlotTally, SlotIdle, SlotHidden, Ends,
         StartReadings, ClockBucketStart, SlotOf;
    var w, r := WindowOf(ps, d, start), StartReadings(ps, base);
    TrafficRunsSteady(ps, d, start);
    SteadyIsCarried(w);
    FirstRunIsPicked(ps, w.gs);
    EndsPickTheirIds(ps, w.gs);
    SumsAgree(w, r.requests, R, slot);
    SumsAgree(w, r.time, T, slot);
    SlotIdlesDiffer(w, r, slot);
    WholePrefix(ps);
    SlotWeights(ps, None, None, base, d, start, slot, |ps|);
    SlotWeights(ps, EndpointIds(ps, d), Some(Ends(w.gs)), base, d, start, slot, |ps|);
  }

  ghost predicate SameLatencies(a: seq<SeriesPoint>, b: seq<SeriesPoint>) {
    |a| == |b| && forall j :: 0 <= j < |a| ==> a[j].ts == b[j].ts && a[j].latency == b[j].latency
  }

  lemma {:induction false} CollapsedLatency(points: seq<SeriesPoint>, slots: seq<int>, j: nat)
    requires |points| == |slots| && NonDecreasing(slots) && j < |Buckets(points, slots)|
    ensures
      var slot := Buckets(points, slots)[j].start;
      && CollapseAll(Buckets(points, slots))[j].ts == slot
      && CollapseAll(Buckets(points, slots))[j].latency == WeightedResult(WeightsOf(InSlot(points, slots, slot)))
  {
    OnePassIsGroupBy(points, slots);
    CollapsedAt(Buckets(points, slots), j);
    CollapseStandsFor(Buckets(points, slots)[j]);
  }

  // ---------- One bucket ----------

  lemma {:induction false} NothingWeighs(points: seq<SeriesPoint>)
    ensures WeightsOf(points).requests <= 0.0 ==> WeightsOf(points).weighted == 0.0
    ensures WeightsOf(points).requests >= 0.0
  {
    hide Weighs, AddWeightedLatency;
    if points != [] {
      NothingWeighs(Init(points));
      OneMoreWeight(WeightsOf(Init(points)), Last(points));
    }
  }

  lemma {:induction false} OneMoreWeight(w: Weights, p: SeriesPoint)
    ensures AddWeightedLatency(w, p) == w || AddWeightedLatency(w, p).requests > w.requests
  {
  }

  /** More time over the same requests is a higher average, except over no requests. */
  lemma {:induction false} MoreTime(w: Weights, more: real)
    requires more >= 0.0
    ensures
      var a, b := WeightedResult(w), WeightedResult(Weights(w.weighted + more, w.requests));
      && (a.Some? <==> w.requests > 0.0) && (b.Some? <==> w.requests > 0.0)
      && (a.Some? ==> a.value <= b.value)
      && (a == b <==> w.requests <= 0.0 || more == 0.0)
  {
    if w.requests > 0.0 {
      var x, y := w.weighted / w.requests, (w.weighted + more) / w.requests;
      assert x * w.requests == w.weighted && y * w.requests == w.weighted + more;
      assert (y - x) * w.requests == more;
    }
  }

  /** The latency of a slot is never lower in the endpoint chart, and the same exactly if the slot's groups are
      plain. */
  lemma {:induction false} SlotLatencies(ps: seq<Poll>, base: Baseline, d: int, start: int, slot: int)
    requires Ordered(ps) && SteadyTraffic(ps)
    ensures
      var ids := EndpointIds(ps, d);
      var native := WeightsOf(InSlot(PointsOf(ps, None, base), PointSlots(ps, None, base, d, start), slot));
      var sampled := WeightsOf(InSlot(PointsOf(ps, ids, base), PointSlots(ps, ids, base, d, start), slot));
      && NotLower(WeightedResult(native), WeightedResult(sampled))
      && (WeightedResult(native) == WeightedResult(sampled) <==> PlainInSlot(WindowOf(ps, d, start), slot))
  {
    hide SteadyTraffic, WeightsOf, InSlot, PointsOf, PointSlots, SlotHidden, ClockBucketStart, SlotOf, Steady,
         PlainInSlot, WeightedResult, GroupsOf, MembersIn, Plain;
    var ids, w := EndpointIds(ps, d), WindowOf(ps, d, start);
    var native := InSlot(PointsOf(ps, None, base), PointSlots(ps, None, base, d, start), slot);
    var sampled := InSlot(PointsOf(ps, ids, base), PointSlots(ps, ids, base, d, start), slot);
    TrafficRunsSteady(ps, d, start);
    SlotWeightsDiffer(ps, base, d, start, slot);
    SlotHidesNothingIff(w, slot);
    NothingWeighs(native);
    NothingWeighs(sampled);
    MoreTime(WeightsOf(native), SlotHidden(w, slot, |ps|));
  }

  predicate NotLower(a: Option<real>, b: Option<real>) {
    (a.Some? <==> b.Some?) && (a.Some? ==> a.value <= b.value)
  }

  // ---------- The charts ----------

  ghost predicate NoLatencyLower(a: seq<SeriesPoint>, b: seq<SeriesPoint>) {
    |a| == |b| && forall j :: 0 <= j < |a| ==> a[j].ts == b[j].ts && NotLower(a[j].latency, b[j].latency)
  }

  /** Every bucket and run counts no request after its first poll, or gains no request time while idle. */
  ghost predicate PlainTraffic(ps: seq<Poll>, d: int, start: int) {
    forall i :: 0 <= i < |ps| && ps[i].run.Some? ==>
                  Plain(MembersIn(WindowOf(ps, d, start), GroupsOf(ps, d)[i], |ps|))
  }

  lemma {:induction false} PlainEverywhere(ps: seq<Poll>, d: int, start: int)
    ensures PlainTraffic(ps, d, start) <==> forall slot :: PlainInSlot(WindowOf(ps, d, start), slot)
  {
    hide MembersIn, Plain, GroupsOf, SlotOf;
    var w := WindowOf(ps, d, start);
    if forall slot :: PlainInSlot(w, slot) {
      forall i | 0 <= i < |ps| && ps[i].run.Some? ensures Plain(MembersIn(w, GroupsOf(ps, d)[i], |ps|)) {
        assert PlainInSlot(w, w.slots[i]);
      }
    }
  }

  lemma {:induction false} EmptyIsPlain(ps: seq<Poll>, base: Baseline, d: int, start: int, slot: int)
    requires Ordered(ps) && SteadyTraffic(ps)
    requires slot !in PointSlots(ps, None, base, d, start)
    requires slot !in PointSlots(ps, EndpointIds(ps, d), base, d, start)
    ensures PlainInSlot(WindowOf(ps, d, start), slot)
  {
    hide SteadyTraffic, WeightsOf, InSlot, PointsOf, PointSlots, PlainInSlot, WeightedResult, GroupsOf, SlotOf;
    EmptySlot(PointsOf(ps, None, base), PointSlots(ps, None, base, d, start), slot);
    EmptySlot(PointsOf(ps, EndpointIds(ps, d), base), PointSlots(ps, EndpointIds(ps, d), base, d, start), slot);
    SlotLatencies(ps, base, d, start, slot);
  }

  /** The aggregated charts of a window, bucket by bucket. */
  lemma {:induction false} CollapsedLatencies(ps: seq<Poll>, base: Baseline, d: int, start: int, j: nat)
    requires Ordered(ps) && SteadyTraffic(ps)
    requires NonDecreasing(PointSlots(ps, None, base, d, start))
    requires NonDecreasing(PointSlots(ps, EndpointIds(ps, d), base, d, start))
    requires
      var x := Buckets(PointsOf(ps, None, base), PointSlots(ps, None, base, d, start));
      var y := Buckets(PointsOf(ps, EndpointIds(ps, d), base), PointSlots(ps, EndpointIds(ps, d), base, d, start));
      Starts(x) == Starts(y) && j < |x|
    ensures
      var x := Buckets(PointsOf(ps, None, base), PointSlots(ps, None, base, d, start));
      var y := Buckets(PointsOf(ps, EndpointIds(ps, d), base), PointSlots(ps, EndpointIds(ps, d), base, d, start));
      var a, b := CollapseAll(x)[j], CollapseAll(y)[j];
      && a.ts == b.ts && NotLower(a.latency, b.latency)
      && (a.latency == b.latency <==> PlainInSlot(WindowOf(ps, d, start), Starts(x)[j]))
  {
    hide SteadyTraffic, WeightsOf, InSlot, PointsOf, PointSlots, PlainInSlot, WeightedResult, GroupsOf, SlotOf, Buckets,
         CollapseAll, NonDecreasing, NotLower;
    var x := Buckets(PointsOf(ps, None, base), PointSlots(ps, None, base, d, start));
    assert Starts(x)[j] == x[j].start;
    SlotLatencies(ps, base, d, start, Starts(x)[j]);
    CollapsedLatency(PointsOf(ps, None, base), PointSlots(ps, None, base, d, start), j);
    CollapsedLatency(PointsOf(ps, EndpointIds(ps, d), base), PointSlots(ps, EndpointIds(ps, d), base, d, start), j);
  }

  lemma {:induction false} SampledLatencies(db: seq<Poll>, ps: seq<Poll>, start: int, end: int, d: int)
    requires ps == Between(db, start, end + 1) && Ordered(ps) && SteadyTraffic(ps)
    requires ChartIds(db, start, end, d).Some?
    ensures
      var native, sampled := Aggregated(NativeSeries(db, start, end), d).points,
          Aggregated(DashboardResult(db, start, end, d), d).points;
      NoLatencyLower(native, sampled) && (SameLatencies(native, sampled) <==> PlainTraffic(ps, d, start))
  {
    hide SteadyTraffic, PointsOf, Aggregated, WeightsOf, InSlot, PointSlots, NativeSeries, DashboardResult,
         PlainTraffic, GroupsOf, SlotOf;
    var base, ids := BaselineOf(db, start, ZERO_TIME), EndpointIds(ps, d);
    ChartsAsPoints(db, ps, start, end, d);
    TrafficIsSteady(ps);
    SampledSlotsAgree(ps, base, d, start, R);
    SlotsOfPoints(ps, None, base, d, start);
    SlotsOfPoints(ps, ids, base, d, start);
    AggregateAlike(NativeSeries(db, start, end), DashboardResult(db, start, end, d), d);
    PlainEverywhere(ps, d, start);
    if PointsOf(ps, None, base) == PointsOf(ps, ids, base) {
      UnmergedArePlain(ps, base, d, start);
    } else {
      MergedLatencies(ps, base, d, start);
    }
  }

  lemma {:induction false} TrafficIsSteady(ps: seq<Poll>)
    requires SteadyTraffic(ps)
    ensures CarryingWindow(ps, R)
  {
  }

  lemma {:induction false} UnmergedArePlain(ps: seq<Poll>, base: Baseline, d: int, start: int)
    requires Ordered(ps) && SteadyTraffic(ps) && PointsOf(ps, None, base) == PointsOf(ps, EndpointIds(ps, d), base)
    ensures forall slot :: PlainInSlot(WindowOf(ps, d, start), slot)
  {
    hide SteadyTraffic, PointsOf, WeightsOf, InSlot, PointSlots, PlainInSlot, WeightedResult, GroupsOf, SlotOf;
    SlotsOfPoints(ps, None, base, d, start);
    SlotsOfPoints(ps, EndpointIds(ps, d), base, d, start);
    forall slot ensures PlainInSlot(WindowOf(ps, d, start), slot) {
      SlotLatencies(ps, base, d, start, slot);
    }
  }

  lemma {:induction false} MergedLatencies(ps: seq<Poll>, base: Baseline, d: int, start: int)
    requires Ordered(ps) && SteadyTraffic(ps)
    requires MergeAlike(PointsOf(ps, None, base), PointSlots(ps, None, base, d, start),
                        PointsOf(ps, EndpointIds(ps, d), base), PointSlots(ps, EndpointIds(ps, d), base, d, start))
    requires
      var x := Buckets(PointsOf(ps, None, base), PointSlots(ps, None, base, d, start));
      var y := Buckets(PointsOf(ps, EndpointIds(ps, d), base), PointSlots(ps, EndpointIds(ps, d), base, d, start));
      Starts(x) == Starts(y)
    ensures
      var x := Buckets(PointsOf(ps, None, base), PointSlots(ps, None, base, d, start));
      var y := Buckets(PointsOf(ps, EndpointIds(ps, d), base), PointSlots(ps, EndpointIds(ps, d), base, d, start));
      && NoLatencyLower(CollapseAll(x), CollapseAll(y))
      && (SameLatencies(CollapseAll(x), CollapseAll(y)) <==> forall slot :: PlainInSlot(WindowOf(ps, d, start), slot))
  {
    hide SteadyTraffic, PointsOf, WeightsOf, InSlot, PointSlots, PlainInSlot, WeightedResult, GroupsOf, SlotOf, Buckets,
         CollapseAll, NonDecreasing, NotLower, Strict;
    var ids, w := EndpointIds(ps, d), WindowOf(ps, d, start);
    var sa := PointSlots(ps, None, base, d, start);
    var x := Buckets(PointsOf(ps, None, base), sa);
    var y := Buckets(PointsOf(ps, ids, base), PointSlots(ps, ids, base, d, start));
    assert |x| == |Starts(x)| == |Starts(y)| == |y|;
    forall j | 0 <= j < |x|
      ensures CollapseAll(x)[j].ts == CollapseAll(y)[j].ts
      ensures NotLower(CollapseAll(x)[j].latency, CollapseAll(y)[j].latency)
      ensures CollapseAll(x)[j].latency == CollapseAll(y)[j].latency <==> PlainInSlot(w, Starts(x)[j])
    {
      CollapsedLatencies(ps, base, d, start, j);
    }
    if SameLatencies(CollapseAll(x), CollapseAll(y)) {
      GroupStarts(PointsOf(ps, None, base), sa);
      forall slot ensures PlainInSlot(w, slot) {
        if slot in sa {
          var j :| 0 <= j < |x| && Starts(x)[j] == slot;
        } else {
          EmptyIsPlain(ps, base, d, start, slot);
        }
      }
    }
  }

  /** With steady traffic the dashboard chart has a latency in exactly the buckets where the native one has, and never a
      lower one. All are the same exactly if the read falls back to every poll or the traffic is plain. */
  lemma {:induction false} EndpointLatencyIsExactIff(db: seq<Poll>, start: int, end: int, bucket: int)
    requires Ordered(db) && SteadyTraffic(Between(db, start, end + 1))
    ensures
      var native, sampled := Aggregated(NativeSeries(db, start, end), bucket).points,
          Aggregated(DashboardResult(db, start, end, bucket), bucket).points;
      && NoLatencyLower(native, sampled)
      && (SameLatencies(native, sampled) <==>
            ChartIds(db, start, end, bucket).None? || PlainTraffic(Between(db, start, end + 1), bucket, start))
  {
    hide SteadyTraffic, Aggregated, PlainTraffic;
    var ps := Between(db, start, end + 1);
    BetweenOrdered(db, start, end + 1);
    if ChartIds(db, start, end, bucket).Some? {
      SampledLatencies(db, ps, start, end, bucket);
    }
  }

  // ---------- A history with idle time ----------

  function Serving(id: int, ts: nat, requests: real, time: real): Poll {
    var samples := map[R := Polls.Sample(Counter, requests, "requests"), T := Polls.Sample(Counter, time, "seconds")];
    Poll(id, ts, Some(1), samples)
  }

  /** Five seconds without a request, then ten requests in five seconds. */
  function IdleHistory(): seq<Poll> {
    [Serving(1, 0, 0.0, 0.0), Serving(2, 1, 0.0, 5.0), Serving(3, 2, 10.0, 10.0)]
  }

  lemma {:induction false} IdleOrdered()
    ensures Ordered(IdleHistory()) && |IdleHistory()| == 3
    ensures forall p :: p in IdleHistory() ==> 0 <= p.ts < 11
    ensures IdleHistory()[0].run.Some?
  {
  }

  lemma {:induction false} IdleIsSteady()
    ensures SteadyTraffic(IdleHistory())
  {
    hide IdleHistory, SteadyWindow;
    IdleRises(R);
    IdleRises(T);
    OneRisingRun(IdleHistory(), R);
    OneRisingRun(IdleHistory(), T);
  }

  lemma {:induction false} IdleRises(k: Key)
    requires k == R || k == T
    ensures forall i :: 0 <= i < |IdleHistory()| ==> IdleHistory()[i].run == Some(1) && Carries(IdleHistory()[i], k)
    ensures forall i, j :: 0 <= i < j < |IdleHistory()| ==>
                             ValueOf(IdleHistory()[i], k) <= ValueOf(IdleHistory()[j], k)
  {
  }

  lemma {:induction false} OneRisingRun(ps: seq<Poll>, k: Key)
    requires forall i :: 0 <= i < |ps| ==> ps[i].run == Some(1) && Carries(ps[i], k)
    requires forall i, j :: 0 <= i < j < |ps| ==> ValueOf(ps[i], k) <= ValueOf(ps[j], k)
    ensures SteadyWindow(ps, k)
  {
  }

  lemma {:induction false} IdleMembers()
    ensures MembersIn(WindowOf(IdleHistory(), 30 * MINUTE, 0), GroupsOf(IdleHistory(), 30 * MINUTE)[0], 3) ==
            [Traffic(0.0, 0.0), Traffic(0.0, 5.0), Traffic(10.0, 10.0)]
  {
    var ps := IdleHistory();
    var w, g := WindowOf(ps, 30 * MINUTE, 0), GroupsOf(ps, 30 * MINUTE)[0];
    forall i | 0 <= i < 3 ensures w.gs[i] == g {
      EarlyBucket(ps[i].ts);
      EarlyBucket(ps[0].ts);
    }
    assert MembersIn(w, g, 1) == [Traffic(0.0, 0.0)];
    assert MembersIn(w, g, 2) == [Traffic(0.0, 0.0), Traffic(0.0, 5.0)];
  }

  lemma {:induction false} EarlyBucket(ts: int)
    requires 0 <= ts < 11
    ensures ClockBucketStart(ts, 30 * MINUTE) == 0
  {
  }

  /** On this history a latency of the sampled chart differs from the native one. */
  lemma {:induction false} IdleTimeShows()
    ensures !SameLatencies(Aggregated(NativeSeries(IdleHistory(), 0, 10), 30 * MINUTE).points,
                           Aggregated(DashboardResult(IdleHistory(), 0, 10, 30 * MINUTE), 30 * MINUTE).points)
  {
    hide IdleHistory, Aggregated, SameLatencies, SteadyTraffic, MembersIn, NativeSeries, DashboardResult, Ends;
    IdleOrdered();
    IdleIsSteady();
    IdleMembers();
    var ps := IdleHistory();
    SeriesLaws.BetweenAll(ps, 0, 11);
    SamplingLoss.EndsFew(GroupsOf(ps, 30 * MINUTE));
    EndpointLatencyIsExactIff(ps, 0, 10, 30 * MINUTE);
    var vs := [Traffic(0.0, 0.0), Traffic(0.0, 5.0), Traffic(10.0, 10.0)];
    assert vs[0].requests == vs[1].requests && vs[0].time != vs[1].time;
    assert !Plain(vs);
  }
}
