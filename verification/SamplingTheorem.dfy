/** The aggregated dashboard chart equals the aggregated native chart under steady, contiguous runs. */
module SamplingTheorem {
  import opened Common
  import opened Polls
  import opened Series
  import opened SeriesReads
  import opened Downsample
  import opened DownsampleLaws
  import opened Dashboard
  import opened Sampling
  import opened SamplingExact

  // ---------- Two charts with the same slots ----------

  ghost predicate SameChart(a: seq<SeriesPoint>, b: seq<SeriesPoint>, f: Field) {
    |a| == |b| && forall j :: 0 <= j < |a| ==> a[j].ts == b[j].ts && a[j].Value(f) == b[j].Value(f)
  }

  ghost predicate Strict(s: seq<int>) {
    forall i, j :: 0 <= i < j < |s| ==> s[i] < s[j]
  }

  function Starts(buckets: seq<Bucket>): (r: seq<int>)
    ensures |r| == |buckets| && forall i :: 0 <= i < |r| ==> r[i] == buckets[i].start
  {
    seq(|buckets|, i requires 0 <= i < |buckets| => buckets[i].start)
  }

  /** Strictly increasing sequences with the same members are equal. */
  lemma {:induction false} SameMembersSameSequence(a: seq<int>, b: seq<int>)
    requires Strict(a) && Strict(b)
    requires forall s :: s in a <==> s in b
    ensures a == b
  {
    if a != [] && b != [] {
      assert Last(a) in b && Last(b) in a;
      assert Last(a) == Last(b);
      assert a == Init(a) + [Last(a)] && b == Init(b) + [Last(b)];
      forall s ensures s in Init(a) <==> s in Init(b) {
        assert s in Init(a) ==> s in a && s < Last(a);
        assert s in Init(b) ==> s in b && s < Last(b);
      }
      SameMembersSameSequence(Init(a), Init(b));
    } else if a != [] {
      LastIsMember(a);
    } else if b != [] {
      LastIsMember(b);
    }
  }

  lemma {:induction false} GroupStarts(points: seq<SeriesPoint>, slots: seq<int>)
    requires |points| == |slots| && NonDecreasing(slots)
    ensures Strict(Starts(Buckets(points, slots)))
    ensures forall s :: s in Starts(Buckets(points, slots)) <==> s in slots
  {
    var buckets := Buckets(points, slots);
    OnePassIsGroupBy(points, slots);
    forall s ensures s in Starts(buckets) <==> s in slots {
      if s in slots {
        var i :| 0 <= i < |slots| && slots[i] == s;
        assert HasSlot(buckets, slots[i]);
        var j :| 0 <= j < |buckets| && buckets[j].start == s;
        assert Starts(buckets)[j] == s;
      }
      if s in Starts(buckets) {
        var j :| 0 <= j < |buckets| && Starts(buckets)[j] == s;
        assert buckets[j].start in slots;
      }
    }
  }

  lemma {:induction false} CollapsedValue(points: seq<SeriesPoint>, slots: seq<int>, f: Field, j: nat)
    requires |points| == |slots| && NonDecreasing(slots) && IsDelta(f) && j < |Buckets(points, slots)|
    ensures
      var slot := Buckets(points, slots)[j].start;
      && CollapseAll(Buckets(points, slots))[j].ts == slot
      && CollapseAll(Buckets(points, slots))[j].Value(f) == SumResult(TallyOf(InSlot(points, slots, slot), f))
  {
    OnePassIsGroupBy(points, slots);
    CollapsedAt(Buckets(points, slots), j);
    CollapseStandsFor(Buckets(points, slots)[j]);
  }

  /** No bucket merges two points exactly when the sorted slots are all different. */
  lemma {:induction false} LoneBucketsStrict(points: seq<SeriesPoint>, slots: seq<int>)
    requires |points| == |slots| && NonDecreasing(slots)
    ensures |Buckets(points, slots)| == |points| <==> Strict(slots)
  {
    if Strict(slots) {
      LoneBuckets(points, slots);
    }
    if |Buckets(points, slots)| == |points| {
      LoneNeighbours(points, slots);
      StrictFromNeighbours(slots);
    }
  }

  lemma {:induction false} LoneNeighbours(points: seq<SeriesPoint>, slots: seq<int>)
    requires |points| == |slots| && |Buckets(points, slots)| == |points|
    ensures NeighboursDiffer(slots)
    ensures forall j :: 0 <= j < |points| ==> Buckets(points, slots)[j].start == slots[j]
  {
    if points != [] {
      var n := |points| - 1;
      LoneNeighbours(points[..n], slots[..n]);
    }
  }

  lemma {:induction false} StrictFromNeighbours(slots: seq<int>)
    requires NonDecreasing(slots) && NeighboursDiffer(slots)
    ensures Strict(slots)
  {
    if slots != [] {
      StrictFromNeighbours(Init(slots));
      assert |slots| > 1 ==> slots[|slots| - 1] != slots[|slots| - 2];
    }
  }

  // ---------- The polls behind a chart ----------

  /** Polls of a run carry the counter, run-less polls carry no series sample at all, and no run is left and entered
      again. */
  ghost predicate CarryingWindow(ps: seq<Poll>, k: Key) {
    && (forall i :: 0 <= i < |ps| ==> if ps[i].run.Some? then Carries(ps[i], k) else !Relevant(ps[i]))
    && RunsContiguous(ps)
  }

  /** Moreover the counter never drops inside a run. */
  ghost predicate SteadyWindow(ps: seq<Poll>, k: Key) {
    CarryingWindow(ps, k) && NeverDrops(ps, k)
  }

  function PollSlots(ps: seq<Poll>, d: int, start: int): (r: seq<int>)
    ensures |r| == |ps| && forall i :: 0 <= i < |r| ==> r[i] == SlotOf(ps[i].ts, d, Some(start))
  {
    seq(|ps|, i requires 0 <= i < |ps| => SlotOf(ps[i].ts, d, Some(start)))
  }

  function WindowOf(ps: seq<Poll>, d: int, start: int): Window {
    Window(ps, GroupsOf(ps, d), PollSlots(ps, d, start))
  }

  /** Exactly the polls of a run carry the counter, and no run is left and entered again. */
  ghost predicate RunsCarry(ps: seq<Poll>, k: Key) {
    (forall i :: 0 <= i < |ps| ==> (ps[i].run.Some? <==> Carries(ps[i], k))) && RunsContiguous(ps)
  }

  lemma {:induction false} WindowCarriedByRuns(ps: seq<Poll>, d: int, start: int, k: Key)
    requires Ordered(ps) && RunsCarry(ps, k)
    ensures CarriedByRuns(WindowOf(ps, d, start), k)
  {
    var w := WindowOf(ps, d, start);
    hide SlotOf, ClockBucketStart;
    forall i, j | 0 <= i < j < |ps|
      ensures w.gs[i].bucket <= w.gs[j].bucket
      ensures w.gs[i].bucket == w.gs[j].bucket ==> w.slots[i] == w.slots[j]
    {
      assert Before(ps[i], ps[j]);
      ClockBucketMonotone(ps[i].ts, ps[j].ts, d);
      SameBucketSameSlot(ps[i].ts, ps[j].ts, d, Some(start));
    }
  }

  lemma {:induction false} SteadyWindowCarries(ps: seq<Poll>, k: Key)
    requires SteadyWindow(ps, k) && IsSeriesKey(k)
    ensures CarryingWindow(ps, k) && RunsCarry(ps, k) && NeverDrops(ps, k)
  {
    CarryingWindowCarries(ps, k);
  }

  lemma {:induction false} CarryingWindowCarries(ps: seq<Poll>, k: Key)
    requires CarryingWindow(ps, k) && IsSeriesKey(k)
    ensures RunsCarry(ps, k)
  {
    forall i | 0 <= i < |ps| ensures ps[i].run.Some? <==> Carries(ps[i], k) {
      ViewCarries(ps[i], k);
    }
  }

  lemma {:induction false} SameBucketSameSlot(a: int, b: int, d: int, floor: Option<int>)
    ensures ClockBucketStart(a, d) == ClockBucketStart(b, d) ==> SlotOf(a, d, floor) == SlotOf(b, d, floor)
  {
  }

  /** The chart points read from the chosen polls, and their slots. */
  function PointsOf(ps: seq<Poll>, ids: Option<set<int>>, base: Baseline): seq<SeriesPoint> {
    Points(Views(Chosen(ps, ids)), base)
  }

  function PointSlots(ps: seq<Poll>, ids: Option<set<int>>, base: Baseline, d: int, start: int): (r: seq<int>)
    ensures |r| == |PointsOf(ps, ids, base)|
  {
    Slots(PointsOf(ps, ids, base), d, Some(start))
  }

  predicate Kept(p: Poll, ids: Option<set<int>>) {
    (ids.None? || p.id in ids.value) && Relevant(p)
  }

  lemma {:induction false} OneMorePoll(ps: seq<Poll>, ids: Option<set<int>>, base: Baseline, d: int, start: int)
    requires ps != []
    ensures
      var init, p := Init(ps), Last(ps);
      var views := Views(Chosen(init, ids));
      if Kept(p, ids) then
        && Views(Chosen(ps, ids)) == views + [View(p)]
        && PointsOf(ps, ids, base) == PointsOf(init, ids, base) + [PointOf(View(p), State(views, base))]
        && PointSlots(ps, ids, base, d, start) == PointSlots(init, ids, base, d, start) + [SlotOf(p.ts, d, Some(start))]
      else
        && Views(Chosen(ps, ids)) == views
        && PointsOf(ps, ids, base) == PointsOf(init, ids, base)
        && PointSlots(ps, ids, base, d, start) == PointSlots(init, ids, base, d, start)
  {
    hide SlotOf, View, PointOf, Updated, Relevant;
    var init, p := Init(ps), Last(ps);
    var chosen := Chosen(init, ids);
    InitOfAppend(chosen, p);
    if Kept(p, ids) {
      ViewedAt(p, State(Views(chosen), base));
      OneMorePoint(Views(chosen), View(p), base);
      SlotsAppend(PointsOf(init, ids, base), PointOf(View(p), State(Views(chosen), base)), d, Some(start));
    }
  }

  lemma {:induction false} ViewedAt(p: Poll, base: Baseline)
    ensures PointOf(View(p), base).ts == p.ts
  {
  }

  lemma {:induction false} SlotsAppend(points: seq<SeriesPoint>, p: SeriesPoint, d: int, floor: Option<int>)
    ensures Slots(points + [p], d, floor) == Slots(points, d, floor) + [SlotOf(p.ts, d, floor)]
  {
    hide SlotOf;
    var all := Slots(points + [p], d, floor);
    forall i | 0 <= i < |all| ensures all[i] == (Slots(points, d, floor) + [SlotOf(p.ts, d, floor)])[i] {}
  }

  // ---------- Poll positions against point positions ----------

  /** `picked` are the positions whose ids are chosen. */
  ghost predicate SamePicks(ps: seq<Poll>, ids: Option<set<int>>, picked: Option<set<int>>) {
    forall i :: 0 <= i < |ps| ==> (Picks(picked, i) <==> ids.None? || ps[i].id in ids.value)
  }

  /** The slot totals of the chart points are the slot tallies of the polls behind them. */
  lemma {:induction false} PointTallies(ps: seq<Poll>, ids: Option<set<int>>, picked: Option<set<int>>, base: Baseline,
                                        d: int, start: int, f: Field, slot: int, n: nat)
    requires n <= |ps| && IsDelta(f) && SamePicks(ps, ids, picked)
    ensures
      var w, k := WindowOf(ps, d, start), CounterOf(f);
      && Read(State(Views(Chosen(ps[..n], ids)), base), k) == ReadingAt(w, picked, Read(base, k), k, n)
      && TallyOf(InSlot(PointsOf(ps[..n], ids, base), PointSlots(ps[..n], ids, base, d, start), slot), f) ==
         SlotTally(w, picked, Read(base, k), k, slot, n)
  {
    hide SlotOf, Gain, InSlot, TallyOf, PointsOf, PointSlots, Views, Chosen, State, Next, AddSum, ClockBucketStart;
    var w, k := WindowOf(ps, d, start), CounterOf(f);
    if n == 0 {
      NoPointTallies(ids, base, d, start, f, slot);
    } else {
      PointTallies(ps, ids, picked, base, d, start, f, slot, n - 1);
      InitOfPrefix(ps, n - 1);
      PointTalliesStep(ps[..n], ids, base, d, start, f, slot);
    }
  }

  lemma {:induction false} NoPointTallies(ids: Option<set<int>>, base: Baseline, d: int, start: int, f: Field,
                                          slot: int)
    ensures State(Views(Chosen([], ids)), base) == base
    ensures TallyOf(InSlot(PointsOf([], ids, base), PointSlots([], ids, base, d, start), slot), f) == NO_TALLY
  {
  }

  /** What one more poll adds to the reading and to the slot tally of the chart points. */
  lemma {:induction false} PointTalliesStep(ps: seq<Poll>, ids: Option<set<int>>, base: Baseline, d: int, start: int,
                                            f: Field, slot: int)
    requires ps != [] && IsDelta(f)
    ensures
      var init, p, k := Init(ps), Last(ps), CounterOf(f);
      var reading := Read(State(Views(Chosen(init, ids)), base), k);
      var tally := TallyOf(InSlot(PointsOf(init, ids, base), PointSlots(init, ids, base, d, start), slot), f);
      var picked := ids.None? || p.id in ids.value;
      && Read(State(Views(Chosen(ps, ids)), base), k) == (if picked then Next(reading, p, k) else reading)
      && TallyOf(InSlot(PointsOf(ps, ids, base), PointSlots(ps, ids, base, d, start), slot), f) ==
         if picked && SlotOf(p.ts, d, Some(start)) == slot then AddSum(tally, Gain(reading, p, k)) else tally
  {
    hide SlotOf, View, PointOf, Updated, Relevant, Gain, InSlot, TallyOf;
    hide Views, Chosen, PointsOf, PointSlots, State, Next, AddSum;
    var init, p, k := Init(ps), Last(ps), CounterOf(f);
    var views := Views(Chosen(init, ids));
    var previous := State(views, base);
    OneMorePoll(ps, ids, base, d, start);
    GainIsDelta(p, previous, f);
    ReadAfter(p, previous, k);
    if Kept(p, ids) {
      OneMorePoint(views, View(p), base);
      var point, points, slots := PointOf(View(p), previous), PointsOf(init, ids, base),
          PointSlots(init, ids, base, d, start);
      SlotAppend(points, slots, point, SlotOf(p.ts, d, Some(start)), slot);
      TallyAppend(InSlot(points, slots, slot), point, f);
    } else {
      NothingGained(TallyOf(InSlot(PointsOf(init, ids, base), PointSlots(init, ids, base, d, start), slot), f));
    }
  }

  lemma {:induction false} ReadAfter(p: Poll, previous: Baseline, k: Key)
    requires IsSeriesKey(k)
    ensures Read(Updated(View(p), previous), k) == Next(Read(previous, k), p, k)
    ensures !Relevant(p) ==> Next(Read(previous, k), p, k) == Read(previous, k)
  {
    ViewCarries(p, k);
  }

  lemma {:induction false} NothingGained(t: Tally)
    ensures AddSum(t, None) == t
  {
  }

  // ---------- Which slots a chart occupies ----------

  ghost predicate KeptAt(ps: seq<Poll>, ids: Option<set<int>>, d: int, start: int, i: int, s: int) {
    0 <= i < |ps| && Kept(ps[i], ids) && SlotOf(ps[i].ts, d, Some(start)) == s
  }

  ghost predicate Occupied(ps: seq<Poll>, ids: Option<set<int>>, d: int, start: int, s: int) {
    exists i :: KeptAt(ps, ids, d, start, i, s)
  }

  lemma {:induction false} OccupiedNext(ps: seq<Poll>, ids: Option<set<int>>, d: int, start: int, s: int)
    requires ps != []
    ensures Occupied(ps, ids, d, start, s) <==>
              Occupied(Init(ps), ids, d, start, s)
              || (Kept(Last(ps), ids) && SlotOf(Last(ps).ts, d, Some(start)) == s)
  {
    hide SlotOf, Kept;
    var init, p := Init(ps), Last(ps);
    if i :| KeptAt(init, ids, d, start, i, s) {
      assert KeptAt(ps, ids, d, start, i, s);
    }
    if Kept(p, ids) && SlotOf(p.ts, d, Some(start)) == s {
      assert KeptAt(ps, ids, d, start, |ps| - 1, s);
    }
    if i :| KeptAt(ps, ids, d, start, i, s) {
      assert i < |init| ==> KeptAt(init, ids, d, start, i, s);
    }
  }

  lemma {:induction false} SlotsAreOccupied(ps: seq<Poll>, ids: Option<set<int>>, base: Baseline, d: int, start: int,
                                            s: int)
    ensures s in PointSlots(ps, ids, base, d, start) <==> Occupied(ps, ids, d, start, s)
  {
    hide SlotOf, Kept, Views, Chosen, PointsOf, PointSlots;
    if ps == [] {
      NoPoints(ids, base, d, start);
    } else {
      SlotsAreOccupied(Init(ps), ids, base, d, start, s);
      OneMorePoll(ps, ids, base, d, start);
      OccupiedNext(ps, ids, d, start, s);
    }
  }

  lemma {:induction false} NoPoints(ids: Option<set<int>>, base: Baseline, d: int, start: int)
    ensures PointsOf([], ids, base) == [] && PointSlots([], ids, base, d, start) == []
  {
  }

  lemma {:induction false} PointSlotsSorted(ps: seq<Poll>, ids: Option<set<int>>, base: Baseline, d: int, start: int)
    requires Ordered(ps)
    ensures NonDecreasing(PointSlots(ps, ids, base, d, start))
  {
    hide SlotOf, Kept, Views, Chosen, PointsOf;
    if ps == [] {
      NoPoints(ids, base, d, start);
    } else {
      var init, p := Init(ps), Last(ps);
      PointSlotsSorted(init, ids, base, d, start);
      OneMorePoll(ps, ids, base, d, start);
      forall s | s in PointSlots(init, ids, base, d, start) ensures s <= SlotOf(p.ts, d, Some(start)) {
        SlotsAreOccupied(init, ids, base, d, start, s);
        var i :| KeptAt(init, ids, d, start, i, s);
        assert Before(ps[i], ps[|ps| - 1]);
        SlotMonotone(ps[i].ts, p.ts, d, Some(start));
      }
      NonDecreasingAppend(PointSlots(init, ids, base, d, start), SlotOf(p.ts, d, Some(start)));
    }
  }

  lemma {:induction false} NonDecreasingAppend(slots: seq<int>, s: int)
    requires NonDecreasing(slots) && forall x :: x in slots ==> x <= s
    ensures NonDecreasing(slots + [s])
  {
    assert forall i :: 0 <= i < |slots| ==> slots[i] in slots;
  }

  ghost predicate KeptApart(ps: seq<Poll>, ids: Option<set<int>>, d: int, start: int) {
    forall i, j, s :: KeptAt(ps, ids, d, start, i, s) && KeptAt(ps, ids, d, start, j, s) ==> i == j
  }

  lemma {:induction false} StrictMeansApart(ps: seq<Poll>, ids: Option<set<int>>, base: Baseline, d: int, start: int)
    requires Ordered(ps)
    ensures Strict(PointSlots(ps, ids, base, d, start)) <==> KeptApart(ps, ids, d, start)
  {
    hide SlotOf, Kept, Views, Chosen, PointsOf, KeptApart;
    if ps == [] {
      NoPoints(ids, base, d, start);
      NothingKept(ids, d, start);
    } else {
      var init, p := Init(ps), Last(ps);
      var before, s := PointSlots(init, ids, base, d, start), SlotOf(p.ts, d, Some(start));
      StrictMeansApart(init, ids, base, d, start);
      OneMorePoll(ps, ids, base, d, start);
      PointSlotsSorted(ps, ids, base, d, start);
      SlotsAreOccupied(init, ids, base, d, start, s);
      ApartStep(ps, ids, d, start);
      if Kept(p, ids) {
        StrictAppend(before, s);
      }
    }
  }

  lemma {:induction false} NothingKept(ids: Option<set<int>>, d: int, start: int)
    ensures KeptApart([], ids, d, start)
  {
  }

  lemma {:induction false} StrictAppend(slots: seq<int>, s: int)
    requires NonDecreasing(slots + [s])
    ensures Strict(slots + [s]) <==> Strict(slots) && s !in slots
  {
    var all := slots + [s];
    assert forall i :: 0 <= i < |slots| ==> all[i] == slots[i];
    if Strict(all) {
      assert forall i :: 0 <= i < |slots| ==> all[i] < all[|slots|];
    }
    assert forall i :: 0 <= i < |slots| ==> all[i] <= all[|slots|];
  }

  lemma {:induction false} ApartStep(ps: seq<Poll>, ids: Option<set<int>>, d: int, start: int)
    requires ps != []
    ensures KeptApart(ps, ids, d, start) <==>
            && KeptApart(Init(ps), ids, d, start)
            && (Kept(Last(ps), ids) ==> !Occupied(Init(ps), ids, d, start, SlotOf(Last(ps).ts, d, Some(start))))
  {
    hide SlotOf, Kept;
    var init, p := Init(ps), Last(ps);
    forall i, s ensures KeptAt(init, ids, d, start, i, s) <==> i < |init| && KeptAt(ps, ids, d, start, i, s) {}
    var s := SlotOf(p.ts, d, Some(start));
    if Kept(p, ids) {
      assert KeptAt(ps, ids, d, start, |init|, s);
      if i :| KeptAt(init, ids, d, start, i, s) {
        assert KeptAt(ps, ids, d, start, i, s);
      }
    }
    assert forall t :: KeptAt(ps, ids, d, start, |init|, t) ==> t == s && Kept(p, ids);
  }

  // ---------- Endpoints keep the chart ----------

  lemma {:induction false} FirstOfGroup(gs: seq<Group>, i: nat) returns (j: nat)
    requires i < |gs|
    ensures j <= i && gs[j] == gs[i] && IsFirst(gs, j)
  {
    j := i;
    if !IsFirst(gs, i) {
      var m :| 0 <= m < i && gs[m] == gs[i];
      j := FirstOfGroup(gs, m);
    }
  }

  lemma {:induction false} LastOfGroup(gs: seq<Group>, i: nat) returns (j: nat)
    requires i < |gs|
    ensures i <= j < |gs| && gs[j] == gs[i] && IsLast(gs, j)
    decreases |gs| - i
  {
    j := i;
    if !IsLast(gs, i) {
      var m :| i < m < |gs| && gs[m] == gs[i];
      j := LastOfGroup(gs, m);
    }
  }

  ghost function EndpointIds(ps: seq<Poll>, d: int): Option<set<int>> {
    Some(EndIds(ps, GroupsOf(ps, d)))
  }

  /** A group end in the group of a relevant poll is kept, and lies in the same slot. */
  lemma {:induction false} EndIsKept(ps: seq<Poll>, k: Key, d: int, start: int, i: nat, j: nat, s: int)
    requires CarryingWindow(ps, k) && IsSeriesKey(k) && KeptAt(ps, None, d, start, i, s)
    requires j < |ps| && j in Ends(GroupsOf(ps, d)) && GroupsOf(ps, d)[j] == GroupsOf(ps, d)[i]
    ensures KeptAt(ps, EndpointIds(ps, d), d, start, j, s)
  {
    hide ClockBucketStart;
    SameBucketSameSlot(ps[i].ts, ps[j].ts, d, Some(start));
    ViewCarries(ps[j], k);
    assert ps[j].id in EndIds(ps, GroupsOf(ps, d));
  }

  lemma {:induction false} EndsOccupyEverySlot(ps: seq<Poll>, k: Key, d: int, start: int, s: int)
    requires CarryingWindow(ps, k) && IsSeriesKey(k)
    ensures Occupied(ps, None, d, start, s) <==> Occupied(ps, EndpointIds(ps, d), d, start, s)
  {
    hide CarryingWindow, SlotOf, ClockBucketStart;
    if i :| KeptAt(ps, None, d, start, i, s) {
      var j := FirstOfGroup(GroupsOf(ps, d), i);
      EndIsKept(ps, k, d, start, i, j, s);
    }
    if i :| KeptAt(ps, EndpointIds(ps, d), d, start, i, s) {
      assert KeptAt(ps, None, d, start, i, s);
    }
  }

  /** If no two kept endpoints share a slot, no two relevant polls do. */
  lemma {:induction false} EndsApart(ps: seq<Poll>, k: Key, d: int, start: int)
    requires CarryingWindow(ps, k) && IsSeriesKey(k) && KeptApart(ps, EndpointIds(ps, d), d, start)
    ensures KeptApart(ps, None, d, start)
  {
    hide CarryingWindow, SlotOf, ClockBucketStart, Ends, EndpointIds;
    var gs, ids := GroupsOf(ps, d), EndpointIds(ps, d);
    forall i, j, s | KeptAt(ps, None, d, start, i, s) && KeptAt(ps, None, d, start, j, s) ensures i == j {
      EndPairKept(ps, k, d, start, i, j, s);
    }
  }

  lemma {:induction false} EndPairKept(ps: seq<Poll>, k: Key, d: int, start: int, i: nat, j: nat, s: int)
    requires CarryingWindow(ps, k) && IsSeriesKey(k)
    requires KeptAt(ps, None, d, start, i, s) && KeptAt(ps, None, d, start, j, s)
    requires KeptApart(ps, EndpointIds(ps, d), d, start)
    ensures i == j
  {
    hide CarryingWindow, SlotOf, ClockBucketStart, EndpointIds;
    var gs := GroupsOf(ps, d);
    var lo, hi := if i <= j then i else j, if i <= j then j else i;
    var a := FirstOfGroup(gs, lo);
    EndIsKept(ps, k, d, start, lo, a, s);
    var b := LastOfGroup(gs, hi);
    EndIsKept(ps, k, d, start, hi, b, s);
  }

  // ---------- The theorem ----------

  lemma {:induction false} FewerViews(ps: seq<Poll>, ids: Option<set<int>>)
    ensures |Views(Chosen(ps, ids))| <= |Views(ps)|
    ensures |Views(Chosen(ps, ids))| == |Views(ps)| ==> Views(Chosen(ps, ids)) == Views(ps)
  {
    hide View, Relevant;
    if ps != [] {
      FewerViews(Init(ps), ids);
      InitOfAppend(Chosen(Init(ps), ids), Last(ps));
    }
  }

  /** What aggregation returns, in terms of the slots of sorted points. */
  lemma {:induction false} AggregatedPoints(series: SeriesData, d: int)
    requires d > 0 && NonDecreasing(Slots(series.points, d, Some(series.start)))
    ensures
      var slots := Slots(series.points, d, Some(series.start));
      Aggregated(series, d).points ==
        if Strict(slots) then series.points else CollapseAll(Buckets(series.points, slots))
  {
    LoneBucketsStrict(series.points, Slots(series.points, d, Some(series.start)));
  }

  /** Sorted charts with the same slots; the second is the first or a thinner one, and merges points if that does. */
  ghost predicate MergeAlike(a: seq<SeriesPoint>, sa: seq<int>, b: seq<SeriesPoint>, sb: seq<int>) {
    && |a| == |sa| && |b| == |sb| && NonDecreasing(sa) && NonDecreasing(sb)
    && (forall s :: s in sa <==> s in sb)
    && (Strict(sb) ==> Strict(sa))
    && |b| <= |a| && (|b| == |a| ==> b == a)
  }

  /** Such charts aggregate to the same points or to buckets with the same starts. */
  lemma {:induction false} AggregateAlike(a: SeriesData, b: SeriesData, d: int)
    requires d > 0
    requires MergeAlike(a.points, Slots(a.points, d, Some(a.start)), b.points, Slots(b.points, d, Some(b.start)))
    ensures
      var x := Buckets(a.points, Slots(a.points, d, Some(a.start)));
      var y := Buckets(b.points, Slots(b.points, d, Some(b.start)));
      && Starts(x) == Starts(y)
      && (|| a.points == b.points == Aggregated(a, d).points == Aggregated(b, d).points
          || (Aggregated(a, d).points == CollapseAll(x) && Aggregated(b, d).points == CollapseAll(y)))
  {
    hide NonDecreasing, Strict, Buckets, CollapseAll, Aggregated;
    var sa, sb := Slots(a.points, d, Some(a.start)), Slots(b.points, d, Some(b.start));
    GroupStarts(a.points, sa);
    GroupStarts(b.points, sb);
    SameMembersSameSequence(Starts(Buckets(a.points, sa)), Starts(Buckets(b.points, sb)));
    LoneBucketsStrict(a.points, sa);
    LoneBucketsStrict(b.points, sb);
    AggregatedPoints(a, d);
    AggregatedPoints(b, d);
  }

  /** Two such charts with the same slot totals aggregate alike. */
  lemma {:induction false} AggregatedChartsAgree(a: SeriesData, b: SeriesData, d: int, f: Field)
    requires d > 0 && IsDelta(f)
    requires
      var sa, sb := Slots(a.points, d, Some(a.start)), Slots(b.points, d, Some(b.start));
      && MergeAlike(a.points, sa, b.points, sb)
      && (forall s :: SumResult(TallyOf(InSlot(a.points, sa, s), f)) == SumResult(TallyOf(InSlot(b.points, sb, s), f)))
    ensures SameChart(Aggregated(a, d).points, Aggregated(b, d).points, f)
  {
    hide NonDecreasing, Strict, Buckets, TallyOf, InSlot, SumResult, CollapseAll, Aggregated;
    var sa, sb := Slots(a.points, d, Some(a.start)), Slots(b.points, d, Some(b.start));
    AggregateAlike(a, b, d);
    var x, y := Buckets(a.points, sa), Buckets(b.points, sb);
    forall j | 0 <= j < |x|
      ensures CollapseAll(x)[j].ts == CollapseAll(y)[j].ts && CollapseAll(x)[j].Value(f) == CollapseAll(y)[j].Value(f)
    {
      assert Starts(x)[j] == Starts(y)[j];
      CollapsedValue(a.points, sa, f, j);
      CollapsedValue(b.points, sb, f, j);
    }
  }

  /** Every slot has the same counter total, or the same absence of one, in the native and in the endpoint chart, even
      if run-less polls carry other samples. */
  lemma {:induction false} SlotTotalsAgree(ps: seq<Poll>, base: Baseline, d: int, start: int, f: Field, slot: int)
    requires Ordered(ps) && IsDelta(f) && RunsCarry(ps, CounterOf(f)) && NeverDrops(ps, CounterOf(f))
    ensures
      var ids := EndpointIds(ps, d);
      SumResult(TallyOf(InSlot(PointsOf(ps, None, base), PointSlots(ps, None, base, d, start), slot), f)) ==
      SumResult(TallyOf(InSlot(PointsOf(ps, ids, base), PointSlots(ps, ids, base, d, start), slot), f))
  {
    hide CarriedByRuns, RunsCarry, NeverDrops, InSlot, TallyOf, PointsOf, PointSlots, SumResult, SlotTally, Ends;
    var w, k, n := WindowOf(ps, d, start), CounterOf(f), |ps|;
    WindowCarriedByRuns(ps, d, start, k);
    SlotTalliesAgree(w, k, Read(base, k), slot);
    EndsPickTheirIds(ps, w.gs);
    WholePrefix(ps);
    PointTallies(ps, None, None, base, d, start, f, slot, n);
    PointTallies(ps, EndpointIds(ps, d), Some(Ends(w.gs)), base, d, start, f, slot, n);
  }

  lemma {:induction false} EndsPickTheirIds(ps: seq<Poll>, gs: seq<Group>)
    requires Ordered(ps) && |ps| == |gs|
    ensures SamePicks(ps, Some(EndIds(ps, gs)), Some(Ends(gs)))
    ensures SamePicks(ps, None, None)
  {
    forall i | 0 <= i < |ps| ensures i in Ends(gs) <==> ps[i].id in EndIds(ps, gs) {
      if ps[i].id in EndIds(ps, gs) {
        var j :| j in Ends(gs) && ps[j].id == ps[i].id;
        assert i == j;
      }
    }
  }

  /** Endpoint sampling is exact after aggregation: under steady, contiguous runs the dashboard chart has the same
      buckets as the native chart and, in each, the same counter total or the same absence of one. */
  lemma {:induction false} EndpointSamplingIsExact(db: seq<Poll>, start: int, end: int, bucket: int, f: Field)
    requires Ordered(db) && IsDelta(f) && SteadyWindow(Between(db, start, end + 1), CounterOf(f))
    ensures SameChart(Aggregated(NativeSeries(db, start, end), bucket).points,
                      Aggregated(DashboardResult(db, start, end, bucket), bucket).points, f)
  {
    var ps := Between(db, start, end + 1);
    BetweenOrdered(db, start, end + 1);
    if ChartIds(db, start, end, bucket).Some? {
      SampledChartIsExact(db, ps, start, end, bucket, f);
    }
  }

  lemma {:induction false} SampledChartIsExact(db: seq<Poll>, ps: seq<Poll>, start: int, end: int, d: int, f: Field)
    requires ps == Between(db, start, end + 1) && Ordered(ps) && IsDelta(f) && SteadyWindow(ps, CounterOf(f))
    requires ChartIds(db, start, end, d).Some?
    ensures SameChart(Aggregated(NativeSeries(db, start, end), d).points,
                      Aggregated(DashboardResult(db, start, end, d), d).points, f)
  {
    hide SteadyWindow, CarryingWindow, PointsOf, Aggregated, TallyOf, InSlot, SumResult, MergeAlike, PointSlots;
    var base, ids, k := BaselineOf(db, start, ZERO_TIME), EndpointIds(ps, d), CounterOf(f);
    ChartsAsPoints(db, ps, start, end, d);
    SteadyWindowCarries(ps, k);
    SampledSlotsAgree(ps, base, d, start, k);
    forall s
      ensures
        SumResult(TallyOf(InSlot(PointsOf(ps, None, base), PointSlots(ps, None, base, d, start), s), f)) ==
        SumResult(TallyOf(InSlot(PointsOf(ps, ids, base), PointSlots(ps, ids, base, d, start), s), f))
    {
      SlotTotalsAgree(ps, base, d, start, f, s);
    }
    SlotsOfPoints(ps, None, base, d, start);
    SlotsOfPoints(ps, ids, base, d, start);
    AggregatedChartsAgree(NativeSeries(db, start, end), DashboardResult(db, start, end, d), d, f);
  }

  lemma {:induction false} SlotsOfPoints(ps: seq<Poll>, ids: Option<set<int>>, base: Baseline, d: int, start: int)
    ensures PointSlots(ps, ids, base, d, start) == Slots(PointsOf(ps, ids, base), d, Some(start))
  {
  }

  /** The native and the endpoint chart occupy the same slots, and neither merges points unless the other does. */
  lemma {:induction false} SampledSlotsAgree(ps: seq<Poll>, base: Baseline, d: int, start: int, k: Key)
    requires Ordered(ps) && CarryingWindow(ps, k) && IsSeriesKey(k)
    ensures
      var ids := EndpointIds(ps, d);
      MergeAlike(PointsOf(ps, None, base), PointSlots(ps, None, base, d, start),
                 PointsOf(ps, ids, base), PointSlots(ps, ids, base, d, start))
  {
    hide CarryingWindow, PointsOf, Strict, KeptApart, NonDecreasing, Occupied;
    var ids := EndpointIds(ps, d);
    PointSlotsSorted(ps, None, base, d, start);
    PointSlotsSorted(ps, ids, base, d, start);
    forall s ensures s in PointSlots(ps, None, base, d, start) <==> s in PointSlots(ps, ids, base, d, start) {
      SlotsAreOccupied(ps, None, base, d, start, s);
      SlotsAreOccupied(ps, ids, base, d, start, s);
      EndsOccupyEverySlot(ps, k, d, start, s);
    }
    StrictMeansApart(ps, None, base, d, start);
    StrictMeansApart(ps, ids, base, d, start);
    if Strict(PointSlots(ps, ids, base, d, start)) {
      EndsApart(ps, k, d, start);
    }
    FewerPoints(ps, ids, base);
  }

  lemma {:induction false} ChartsAsPoints(db: seq<Poll>, ps: seq<Poll>, start: int, end: int, d: int)
    requires ps == Between(db, start, end + 1) && ChartIds(db, start, end, d).Some?
    ensures d > 0
    ensures
      var base, native, chart :=
          BaselineOf(db, start, ZERO_TIME), NativeSeries(db, start, end), DashboardResult(db, start, end, d);
      && native.start == chart.start == start
      && native.points == PointsOf(ps, None, base) && chart.points == PointsOf(ps, EndpointIds(ps, d), base)
  {
  }

  lemma {:induction false} FewerPoints(ps: seq<Poll>, ids: Option<set<int>>, base: Baseline)
    ensures |PointsOf(ps, ids, base)| <= |PointsOf(ps, None, base)|
    ensures |PointsOf(ps, ids, base)| == |PointsOf(ps, None, base)| ==>
              PointsOf(ps, ids, base) == PointsOf(ps, None, base)
  {
    ChooseAll(ps, None);
    FewerViews(ps, ids);
  }
}
