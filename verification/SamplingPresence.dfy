/** When a sampled slot shows a delta at all, and when the sampled chart is the native one. */
module SamplingPresence {
  import opened Common
  import opened Polls
  import opened Series
  import opened SeriesReads
  import opened Downsample
  import opened DownsampleLaws
  import opened Dashboard
  import opened Sampling
  import opened SamplingExact
  import opened SamplingLoss
  import opened SamplingTheorem

  // ---------- Which polls show a delta ----------

  /** A selected poll of the slot that has a delta against the reading of its fold. */
  ghost predicate GainsAt(w: Window, picked: Option<set<int>>, r: Reading, k: Key, slot: int, i: int)
    requires |w.ps| == |w.gs| == |w.slots|
  {
    0 <= i < |w.ps| && Picks(picked, i) && w.slots[i] == slot && Gain(ReadingAt(w, picked, r, k, i), w.ps[i], k).Some?
  }

  lemma {:induction false} TallyShows(w: Window, picked: Option<set<int>>, r: Reading, k: Key, slot: int, n: nat)
    requires n <= |w.ps| == |w.gs| == |w.slots|
    ensures SlotTally(w, picked, r, k, slot, n).n > 0 <==> exists i :: i < n && GainsAt(w, picked, r, k, slot, i)
  {
    hide Gain, ReadingAt;
    if n > 0 {
      TallyShows(w, picked, r, k, slot, n - 1);
      assert GainsAt(w, picked, r, k, slot, n - 1) <==>
        Picks(picked, n - 1) && w.slots[n - 1] == slot && Gain(ReadingAt(w, picked, r, k, n - 1), w.ps[n - 1], k).Some?;
    }
  }

  /** The first poll of a group has a delta against what was read before. */
  ghost predicate OpensWithDelta(w: Window, r: Reading, k: Key, i: int)
    requires |w.ps| == |w.gs|
  {
    0 <= i < |w.ps| && IsFirst(w.gs, i) && Gain(ReadingAt(w, None, r, k, i), w.ps[i], k).Some?
  }

  /** The last value of a group is not below its first. */
  predicate EndsNoLower(vs: seq<real>) {
    |vs| >= 2 && vs[0] <= Last(vs)
  }

  ghost predicate StrictlyFalls(vs: seq<real>) {
    forall i :: 0 < i < |vs| ==> vs[i] < vs[i - 1]
  }

  /** A run poll of the slot whose group shows a delta at one of its ends. */
  ghost predicate EndShows(w: Window, r: Reading, k: Key, slot: int, i: int)
    requires |w.ps| == |w.gs| == |w.slots|
  {
    && 0 <= i < |w.ps| && w.ps[i].run.Some? && w.slots[i] == slot
    && (OpensWithDelta(w, r, k, i) || EndsNoLower(ValuesIn(w, k, w.gs[i], |w.ps|)))
  }

  ghost predicate EndsShow(w: Window, r: Reading, k: Key, slot: int)
    requires |w.ps| == |w.gs| == |w.slots|
  {
    exists i :: EndShows(w, r, k, slot, i)
  }

  /** Every group of the slot falls from poll to poll. */
  ghost predicate FallsInSlot(w: Window, k: Key, slot: int)
    requires |w.ps| == |w.gs| == |w.slots|
  {
    forall i :: 0 <= i < |w.ps| && w.ps[i].run.Some? && w.slots[i] == slot ==>
                  StrictlyFalls(ValuesIn(w, k, w.gs[i], |w.ps|))
  }

  // ---------- The values of a group ----------

  lemma {:induction false} NoLowerDoesNotFall(vs: seq<real>)
    requires EndsNoLower(vs)
    ensures !StrictlyFalls(vs)
  {
    if StrictlyFalls(vs) {
      FallsBelow(vs, |vs| - 1);
    }
  }

  lemma {:induction false} FallsBelow(vs: seq<real>, n: nat)
    requires StrictlyFalls(vs) && 0 < n < |vs|
    ensures vs[n] < vs[0]
  {
    if n > 1 {
      FallsBelow(vs, n - 1);
    }
  }

  /** Values of a group stay where they are as more polls come. */
  lemma {:induction false} ValuesGrow(w: Window, k: Key, g: Group, m: nat, n: nat)
    requires m <= n <= |w.ps| == |w.gs|
    ensures |ValuesIn(w, k, g, m)| <= |ValuesIn(w, k, g, n)|
    ensures ValuesIn(w, k, g, n)[..|ValuesIn(w, k, g, m)|] == ValuesIn(w, k, g, m)
  {
    hide Carries;
    if m < n {
      ValuesGrow(w, k, g, m, n - 1);
    }
  }

  /** The poll behind the m-th value of a group. */
  lemma {:induction false} ValueAt(w: Window, k: Key, g: Group, n: nat, m: nat) returns (p: nat)
    requires n <= |w.ps| == |w.gs| && m < |ValuesIn(w, k, g, n)|
    ensures p < n && w.gs[p] == g && Carries(w.ps[p], k) && |ValuesIn(w, k, g, p)| == m
    ensures ValuesIn(w, k, g, n)[m] == ValueOf(w.ps[p], k)
    ensures m > 0 ==> Last(ValuesIn(w, k, g, p)) == ValuesIn(w, k, g, n)[m - 1]
  {
    if m < |ValuesIn(w, k, g, n - 1)| {
      p := ValueAt(w, k, g, n - 1, m);
    } else {
      p := n - 1;
    }
  }

  // ---------- Deltas of the two folds ----------

  /** What the folds read before a run poll that is not the first of its group. */
  lemma {:induction false} ReadInside(w: Window, r: Reading, k: Key, i: nat)
    requires CarriedByRuns(w, k) && i < |w.ps| == |w.gs| == |w.slots| && w.ps[i].run.Some? && !IsFirst(w.gs, i)
    ensures
      var vs := ValuesIn(w, k, w.gs[i], i);
      var native, sampled := ReadingAt(w, None, r, k, i), ReadingAt(w, Some(Ends(w.gs)), r, k, i);
      && vs != []
      && native.Some? && native.value.run == w.ps[i].run && native.value.value == Last(vs)
      && sampled.Some? && sampled.value.run == w.ps[i].run && sampled.value.value == vs[0]
  {
    hide CarriedByRuns, IsFirst, IsLast, SlotTally, SlotLoss, ReadingAt, Ends, Rises, Carries, ValuesIn;
    var q := LastRun(w.ps, i);
    NeighbourGroups(w, k, q, i);
    StaysBehind(w, k, r, w.slots[i], i);
    RunAt(w, k, i);
    RunAt(w, k, q);
  }

  /** Both folds read the same before a run poll that is the first of its group. */
  lemma {:induction false} ReadOutside(w: Window, r: Reading, k: Key, i: nat)
    requires CarriedByRuns(w, k) && i < |w.ps| == |w.gs| == |w.slots| && w.ps[i].run.Some? && IsFirst(w.gs, i)
    ensures ReadingAt(w, None, r, k, i) == ReadingAt(w, Some(Ends(w.gs)), r, k, i)
  {
    hide CarriedByRuns, IsFirst, IsLast, SlotTally, SlotLoss, ReadingAt, Ends, Rises, Carries, ValuesIn;
    var q := LastRun(w.ps, i);
    NeighbourGroups(w, k, q, i);
    StaysBehind(w, k, r, w.slots[i], i);
  }

  lemma {:induction false} GainAgainst(r: Reading, p: Poll, k: Key)
    requires Carries(p, k) && r.Some? && r.value.run == p.run
    ensures Gain(r, p, k).Some? <==> r.value.value <= ValueOf(p, k)
  {
  }

  lemma {:induction false} OnlyCarriersGain(w: Window, picked: Option<set<int>>, r: Reading, k: Key, slot: int, i: int)
    requires CarriedByRuns(w, k) && |w.ps| == |w.gs| == |w.slots| && GainsAt(w, picked, r, k, slot, i)
    ensures 0 <= i < |w.ps| && Carries(w.ps[i], k) && w.ps[i].run.Some?
  {
  }

  lemma {:induction false} SampledGainIsEnd(w: Window, r: Reading, k: Key, slot: int, i: int)
    requires CarriedByRuns(w, k) && |w.ps| == |w.gs| == |w.slots| && GainsAt(w, Some(Ends(w.gs)), r, k, slot, i)
    ensures EndShows(w, r, k, slot, i)
  {
    hide CarriedByRuns, IsFirst, IsLast, ReadingAt, Ends, ValuesIn, Carries, Gain;
    OnlyCarriersGain(w, Some(Ends(w.gs)), r, k, slot, i);
    EndMeans(w.gs, i);
    if IsFirst(w.gs, i) {
      ReadOutside(w, r, k, i);
    } else {
      ReadInside(w, r, k, i);
      GainAgainst(ReadingAt(w, Some(Ends(w.gs)), r, k, i), w.ps[i], k);
      EndedGroup(w, k, i);
      LossNext(w, k, slot, i, w.gs[i]);
    }
  }

  lemma {:induction false} EndIsSampledGain(w: Window, r: Reading, k: Key, slot: int, i: int) returns (j: int)
    requires CarriedByRuns(w, k) && |w.ps| == |w.gs| == |w.slots| && EndShows(w, r, k, slot, i)
    ensures GainsAt(w, Some(Ends(w.gs)), r, k, slot, j)
  {
    hide CarriedByRuns, IsFirst, IsLast, ReadingAt, Ends, ValuesIn, Carries, Gain;
    if OpensWithDelta(w, r, k, i) {
      j := i;
      EndMeans(w.gs, i);
      ReadOutside(w, r, k, i);
    } else {
      j := LastOfGroup(w.gs, i);
      RunAt(w, k, i);
      RunAt(w, k, j);
      BucketsGrow(w, k, i, j);
      CarriedAt(w, k, j);
      EndMeans(w.gs, j);
      EndedGroup(w, k, j);
      LossNext(w, k, slot, j, w.gs[j]);
      if IsFirst(w.gs, j) {
        FirstHasNoMembers(w, k, j);
      }
      ReadInside(w, r, k, j);
      GainAgainst(ReadingAt(w, Some(Ends(w.gs)), r, k, j), w.ps[j], k);
    }
  }

  lemma {:induction false} NativeGainIsStep(w: Window, r: Reading, k: Key, slot: int, i: int)
    requires CarriedByRuns(w, k) && |w.ps| == |w.gs| == |w.slots| && GainsAt(w, None, r, k, slot, i)
    ensures EndShows(w, r, k, slot, i) || !FallsInSlot(w, k, slot)
  {
    hide CarriedByRuns, IsFirst, IsLast, ReadingAt, Ends, ValuesIn, Carries, Gain, StrictlyFalls, EndsNoLower;
    OnlyCarriersGain(w, None, r, k, slot, i);
    if !IsFirst(w.gs, i) {
      ReadInside(w, r, k, i);
      GainAgainst(ReadingAt(w, None, r, k, i), w.ps[i], k);
      LossNext(w, k, slot, i, w.gs[i]);
      ValuesGrow(w, k, w.gs[i], i + 1, |w.ps|);
      StepUp(ValuesIn(w, k, w.gs[i], i), ValueOf(w.ps[i], k), ValuesIn(w, k, w.gs[i], |w.ps|));
    }
  }

  lemma {:induction false} StepUp(vs: seq<real>, v: real, all: seq<real>)
    requires vs != [] && Last(vs) <= v && |vs| < |all| && all[..|vs| + 1] == vs + [v]
    ensures !StrictlyFalls(all)
  {
    assert all[..|vs| + 1][|vs|] == v && all[..|vs| + 1][|vs| - 1] == Last(vs);
  }

  lemma {:induction false} StepIsNativeGain(w: Window, r: Reading, k: Key, slot: int, i: int) returns (j: int)
    requires CarriedByRuns(w, k) && |w.ps| == |w.gs| == |w.slots| && 0 <= i < |w.ps| && w.ps[i].run.Some?
    requires w.slots[i] == slot && !StrictlyFalls(ValuesIn(w, k, w.gs[i], |w.ps|))
    ensures GainsAt(w, None, r, k, slot, j)
  {
    hide CarriedByRuns, IsFirst, IsLast, ReadingAt, Ends, ValuesIn, Carries, Gain;
    var vs := ValuesIn(w, k, w.gs[i], |w.ps|);
    var m :| 0 < m < |vs| && vs[m - 1] <= vs[m];
    j := ValueAt(w, k, w.gs[i], |w.ps|, m);
    RunAt(w, k, i);
    RunAt(w, k, j);
    if i <= j {
      BucketsGrow(w, k, i, j);
    } else {
      BucketsGrow(w, k, j, i);
    }
    if IsFirst(w.gs, j) {
      FirstHasNoMembers(w, k, j);
    }
    ReadInside(w, r, k, j);
    GainAgainst(ReadingAt(w, None, r, k, j), w.ps[j], k);
  }

  // ---------- Presence ----------

  /** A sampled slot shows a delta exactly if some group of it shows one at its ends. */
  lemma {:induction false} SampledShowsIff(w: Window, r: Reading, k: Key, slot: int)
    requires CarriedByRuns(w, k)
    ensures |w.ps| == |w.gs| == |w.slots|
    ensures SlotTally(w, Some(Ends(w.gs)), r, k, slot, |w.ps|).n > 0 <==> EndsShow(w, r, k, slot)
  {
    hide CarriedByRuns, Ends, GainsAt, EndShows, SlotTally;
    SizesAgree(w, k);
    TallyShows(w, Some(Ends(w.gs)), r, k, slot, |w.ps|);
    if i :| GainsAt(w, Some(Ends(w.gs)), r, k, slot, i) {
      SampledGainIsEnd(w, r, k, slot, i);
    }
    if i :| EndShows(w, r, k, slot, i) {
      var j := EndIsSampledGain(w, r, k, slot, i);
      InRange(w, Some(Ends(w.gs)), r, k, slot, j);
    }
  }

  lemma {:induction false} InRange(w: Window, picked: Option<set<int>>, r: Reading, k: Key, slot: int, i: int)
    requires |w.ps| == |w.gs| == |w.slots| && GainsAt(w, picked, r, k, slot, i)
    ensures 0 <= i < |w.ps|
  {
  }

  /** A native slot shows a delta exactly if a sampled one does or some group of it does not fall all the way. */
  lemma {:induction false} NativeShowsIff(w: Window, r: Reading, k: Key, slot: int)
    requires CarriedByRuns(w, k)
    ensures |w.ps| == |w.gs| == |w.slots|
    ensures SlotTally(w, None, r, k, slot, |w.ps|).n > 0 <==> EndsShow(w, r, k, slot) || !FallsInSlot(w, k, slot)
  {
    hide CarriedByRuns, GainsAt, SlotTally, StrictlyFalls, ValuesIn, EndsNoLower, OpensWithDelta;
    SizesAgree(w, k);
    TallyShows(w, None, r, k, slot, |w.ps|);
    if i :| GainsAt(w, None, r, k, slot, i) {
      NativeGainIsStep(w, r, k, slot, i);
    }
    if !FallsInSlot(w, k, slot) {
      var i :| 0 <= i < |w.ps| && w.ps[i].run.Some? && w.slots[i] == slot
               && !StrictlyFalls(ValuesIn(w, k, w.gs[i], |w.ps|));
      var j := StepIsNativeGain(w, r, k, slot, i);
      InRange(w, None, r, k, slot, j);
    }
    if i :| EndShows(w, r, k, slot, i) {
      if OpensWithDelta(w, r, k, i) {
        OpeningGains(w, r, k, slot, i);
      } else {
        NoLowerDoesNotFall(ValuesIn(w, k, w.gs[i], |w.ps|));
      }
    }
  }

  lemma {:induction false} OpeningGains(w: Window, r: Reading, k: Key, slot: int, i: int)
    requires |w.ps| == |w.gs| == |w.slots| && OpensWithDelta(w, r, k, i) && w.slots[i] == slot
    ensures GainsAt(w, None, r, k, slot, i)
  {
  }

  /** What the endpoints of a slot show in full: each group goes one way, and if the endpoints show no delta there is
      none, since every group falls from poll to poll. */
  ghost predicate Faithful(w: Window, r: Reading, k: Key, slot: int)
    requires |w.ps| == |w.gs| == |w.slots|
  {
    MonotoneInSlot(w, k, slot) && (EndsShow(w, r, k, slot) || FallsInSlot(w, k, slot))
  }

  /** A slot has the same total, or the same absence of one, in both folds exactly if its endpoints are faithful. */
  lemma {:induction false} SlotResultsAgreeIff(w: Window, r: Reading, k: Key, slot: int)
    requires CarriedByRuns(w, k)
    ensures |w.ps| == |w.gs| == |w.slots|
    ensures
      var native, sampled := SlotTally(w, None, r, k, slot, |w.ps|), SlotTally(w, Some(Ends(w.gs)), r, k, slot, |w.ps|);
      SumResult(native) == SumResult(sampled) <==> Faithful(w, r, k, slot)
  {
    hide CarriedByRuns, Ends, SlotTally, MonotoneInSlot, EndsShow, FallsInSlot, SlotLoss;
    SizesAgree(w, k);
    SampledShowsIff(w, r, k, slot);
    NativeShowsIff(w, r, k, slot);
    SlotTalliesDiffer(w, k, r, slot);
    SlotLosslessIff(w, k, slot);
    TallyIsEmpty(w, None, r, k, slot, |w.ps|);
    TallyIsEmpty(w, Some(Ends(w.gs)), r, k, slot, |w.ps|);
  }

  // ---------- The charts ----------

  /** The total of a slot of a chart, if it shows one. */
  function SlotResult(points: seq<SeriesPoint>, slots: seq<int>, slot: int, f: Field): Option<real>
    requires |points| == |slots|
  {
    SumResult(TallyOf(InSlot(points, slots, slot), f))
  }

  /** A slot of the sampled chart is the native one, in total and in presence, exactly if its endpoints are faithful. */
  lemma {:induction false} SlotIsSameIff(ps: seq<Poll>, base: Baseline, d: int, start: int, f: Field, slot: int)
    requires Ordered(ps) && IsDelta(f) && RunsCarry(ps, CounterOf(f))
    ensures
      var ids, k := EndpointIds(ps, d), CounterOf(f);
      SlotResult(PointsOf(ps, None, base), PointSlots(ps, None, base, d, start), slot, f) ==
      SlotResult(PointsOf(ps, ids, base), PointSlots(ps, ids, base, d, start), slot, f)
      <==> Faithful(WindowOf(ps, d, start), Read(base, k), k, slot)
  {
    hide CarriedByRuns, RunsCarry, InSlot, TallyOf, PointsOf, PointSlots, SumResult, SlotTally, Ends, Faithful;
    var w, k, n := WindowOf(ps, d, start), CounterOf(f), |ps|;
    WindowCarriedByRuns(ps, d, start, k);
    SlotResultsAgreeIff(w, Read(base, k), k, slot);
    EndsPickTheirIds(ps, w.gs);
    WholePrefix(ps);
    PointTallies(ps, None, None, base, d, start, f, slot, n);
    PointTallies(ps, EndpointIds(ps, d), Some(Ends(w.gs)), base, d, start, f, slot, n);
  }

  lemma {:induction false} EmptyResult(points: seq<SeriesPoint>, slots: seq<int>, slot: int, f: Field)
    requires |points| == |slots| && slot !in slots
    ensures SlotResult(points, slots, slot, f) == None
  {
    EmptySlot(points, slots, slot);
  }

  /** Charts that merge alike aggregate to the same chart exactly if all their slots show the same. */
  lemma {:induction false} ChartsAgreeIff(a: SeriesData, b: SeriesData, d: int, f: Field)
    requires d > 0 && IsDelta(f) && a.start == b.start
    requires MergeAlike(a.points, Slots(a.points, d, Some(a.start)), b.points, Slots(b.points, d, Some(b.start)))
    ensures
      var sa, sb := Slots(a.points, d, Some(a.start)), Slots(b.points, d, Some(b.start));
      SameChart(Aggregated(a, d).points, Aggregated(b, d).points, f) <==>
        forall s :: SlotResult(a.points, sa, s, f) == SlotResult(b.points, sb, s, f)
  {
    hide NonDecreasing, Strict, Buckets, SlotResult, CollapseAll, Aggregated;
    var sa, sb := Slots(a.points, d, Some(a.start)), Slots(b.points, d, Some(b.start));
    AggregateAlike(a, b, d);
    var x, y := Buckets(a.points, sa), Buckets(b.points, sb);
    assert |x| == |Starts(x)| == |Starts(y)| == |y|;
    forall j | 0 <= j < |x|
      ensures CollapseAll(x)[j].ts == CollapseAll(y)[j].ts == Starts(x)[j]
      ensures CollapseAll(x)[j].Value(f) == CollapseAll(y)[j].Value(f) <==>
                SlotResult(a.points, sa, Starts(x)[j], f) == SlotResult(b.points, sb, Starts(x)[j], f)
    {
      BucketResult(a.points, sa, f, j);
      BucketResult(b.points, sb, f, j);
    }
    if a.points != b.points && SameChart(CollapseAll(x), CollapseAll(y), f) {
      GroupStarts(a.points, sa);
      forall s ensures SlotResult(a.points, sa, s, f) == SlotResult(b.points, sb, s, f) {
        if s in sa {
          var j :| 0 <= j < |x| && Starts(x)[j] == s;
        } else {
          EmptyResult(a.points, sa, s, f);
          EmptyResult(b.points, sb, s, f);
        }
      }
    }
  }

  lemma {:induction false} BucketResult(points: seq<SeriesPoint>, slots: seq<int>, f: Field, j: nat)
    requires |points| == |slots| && NonDecreasing(slots) && IsDelta(f) && j < |Buckets(points, slots)|
    ensures
      var slot := Starts(Buckets(points, slots))[j];
      && CollapseAll(Buckets(points, slots))[j].ts == slot
      && CollapseAll(Buckets(points, slots))[j].Value(f) == SlotResult(points, slots, slot, f)
  {
    hide Buckets, CollapseAll, NonDecreasing, TallyOf, InSlot, SumResult;
    CollapsedValue(points, slots, f, j);
  }

  lemma {:induction false} SampledChartIff(db: seq<Poll>, ps: seq<Poll>, start: int, end: int, d: int, f: Field)
    requires ps == Between(db, start, end + 1) && Ordered(ps) && IsDelta(f) && CarryingWindow(ps, CounterOf(f))
    requires ChartIds(db, start, end, d).Some?
    ensures
      SameChart(Aggregated(NativeSeries(db, start, end), d).points,
                Aggregated(DashboardResult(db, start, end, d), d).points, f) <==>
        FaithfulChart(db, ps, start, d, CounterOf(f))
  {
    hide CarryingWindow, PointsOf, Aggregated, MergeAlike, PointSlots, SameChart, Faithful, SlotResult, NativeSeries,
         DashboardResult;
    var base, ids, k := BaselineOf(db, start, ZERO_TIME), EndpointIds(ps, d), CounterOf(f);
    ChartsAsPoints(db, ps, start, end, d);
    CarryingWindowCarries(ps, k);
    SampledSlotsAgree(ps, base, d, start, k);
    forall s
      ensures
        SlotResult(PointsOf(ps, None, base), PointSlots(ps, None, base, d, start), s, f) ==
        SlotResult(PointsOf(ps, ids, base), PointSlots(ps, ids, base, d, start), s, f)
        <==> Faithful(WindowOf(ps, d, start), Read(base, k), k, s)
    {
      SlotIsSameIff(ps, base, d, start, f, s);
    }
    SlotsOfPoints(ps, None, base, d, start);
    SlotsOfPoints(ps, ids, base, d, start);
    ChartsAgreeIff(NativeSeries(db, start, end), DashboardResult(db, start, end, d), d, f);
  }

  /** The endpoints of every chart slot are faithful. */
  ghost predicate FaithfulChart(db: seq<Poll>, ps: seq<Poll>, start: int, d: int, k: Key) {
    forall slot :: Faithful(WindowOf(ps, d, start), Read(BaselineOf(db, start, ZERO_TIME), k), k, slot)
  }

  /** With contiguous runs whose polls carry the counter, the dashboard chart has the same buckets as the native one and
      in each the same total, or the same absence of one, exactly if the read falls back to every poll or the endpoints
      of every slot are faithful. */
  lemma {:induction false} EndpointSamplingIsExactIff(db: seq<Poll>, start: int, end: int, bucket: int, f: Field)
    requires Ordered(db) && IsDelta(f) && CarryingWindow(Between(db, start, end + 1), CounterOf(f))
    ensures
      var ps := Between(db, start, end + 1);
      SameChart(Aggregated(NativeSeries(db, start, end), bucket).points,
                Aggregated(DashboardResult(db, start, end, bucket), bucket).points, f) <==>
        ChartIds(db, start, end, bucket).None? || FaithfulChart(db, ps, start, bucket, CounterOf(f))
  {
    hide CarryingWindow, Aggregated, FaithfulChart;
    var ps := Between(db, start, end + 1);
    BetweenOrdered(db, start, end + 1);
    if ChartIds(db, start, end, bucket).Some? {
      SampledChartIff(db, ps, start, end, bucket, f);
    }
  }
}
