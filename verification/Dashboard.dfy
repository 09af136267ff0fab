/** The long-range dashboard read: endpoint-sampled chart points with natively derived latest values. */
module Dashboard {
  import opened Common
  import opened Polls
  import opened Series
  import opened SeriesReads
  import opened Downsample

  const DASHBOARD_POLL_LIMIT := PUBLIC_POLL_LIMIT
  const MINUTE := 60_000_000_000

  // ---------- Endpoints of a group sequence ----------

  /** A clock bucket and an app run; run-less polls form their own group. */
  datatype Group = Group(bucket: int, run: Option<int>)

  function GroupsOf(ps: seq<Poll>, d: int): (r: seq<Group>)
    ensures |r| == |ps|
    ensures forall i :: 0 <= i < |ps| ==> r[i] == Group(ClockBucketStart(ps[i].ts, d), ps[i].run)
  {
    seq(|ps|, i requires 0 <= i < |ps| => Group(ClockBucketStart(ps[i].ts, d), ps[i].run))
  }

  ghost predicate IsFirst(gs: seq<Group>, i: nat)
    requires i < |gs|
  {
    forall j :: 0 <= j < i ==> gs[j] != gs[i]
  }

  ghost predicate IsLast(gs: seq<Group>, i: nat)
    requires i < |gs|
  {
    forall j :: i < j < |gs| ==> gs[j] != gs[i]
  }

  /** Positions that are the first or the last of their group. */
  ghost function Ends(gs: seq<Group>): set<int> {
    set i | 0 <= i < |gs| && (IsFirst(gs, i) || IsLast(gs, i))
  }

  ghost function EndIds(ps: seq<Poll>, gs: seq<Group>): set<int>
    requires |ps| == |gs|
  {
    set i | i in Ends(gs) :: ps[i].id
  }

  datatype Pair = Pair(first: int, last: int)

  /** Where a group has been seen: the positions of its first and last member. */
  ghost predicate Spans(gs: seq<Group>, g: Group, first: int, last: int) {
    0 <= first <= last < |gs| && gs[first] == gs[last] == g && IsFirst(gs, first) && IsLast(gs, last)
  }

  ghost predicate Tracks(groups: map<Group, Pair>, spans: map<Group, Pair>, ps: seq<Poll>, gs: seq<Group>)
    requires |ps| == |gs|
  {
    && groups.Keys == spans.Keys
    && (forall g :: g in gs ==> g in spans)
    && (forall g :: g in spans ==> Spans(gs, g, spans[g].first, spans[g].last))
    && (forall g :: g in spans ==> groups[g] == Pair(ps[spans[g].first].id, ps[spans[g].last].id))
  }

  lemma {:induction false} EndsGrow(gs: seq<Group>, g: Group, span: Option<Pair>)
    requires span.Some? ==> Spans(gs, g, span.value.first, span.value.last)
    requires span.None? ==> g !in gs
    ensures
      Ends(gs + [g]) ==
        (if span.Some? && span.value.first != span.value.last then Ends(gs) - {span.value.last} else Ends(gs)) + {|gs|}
    ensures |Ends(gs + [g])| == if span.Some? && span.value.first != span.value.last then |Ends(gs)| else |Ends(gs)| + 1
  {
    hide IsFirst, IsLast;
    EndsOfAppend(gs, g);
    if span.Some? {
      OnlyEnds(gs, g, span.value.first, span.value.last);
    }
    assert |gs| !in Ends(gs);
  }

  /** Appending takes the last place of its group from the former last member. */
  lemma {:induction false} EndsOfAppend(gs: seq<Group>, g: Group)
    ensures |gs| in Ends(gs + [g])
    ensures forall i :: 0 <= i < |gs| ==>
                          (i in Ends(gs + [g]) <==> IsFirst(gs, i) || (IsLast(gs, i) && gs[i] != g))
  {
    var all := gs + [g];
    assert IsLast(all, |gs|);
    forall i | 0 <= i < |gs|
      ensures IsFirst(all, i) == IsFirst(gs, i) && IsLast(all, i) == (IsLast(gs, i) && gs[i] != g)
    {
      assert all[|gs|] == g;
      assert forall j :: 0 <= j < |gs| ==> all[j] == gs[j];
    }
  }

  lemma {:induction false} OnlyEnds(gs: seq<Group>, g: Group, first: int, last: int)
    requires Spans(gs, g, first, last)
    ensures forall i :: 0 <= i < |gs| && gs[i] == g ==>
                          (IsFirst(gs, i) <==> i == first) && (IsLast(gs, i) <==> i == last)
    ensures last in Ends(gs)
  {
  }

  lemma {:induction false} EndsMonotone(gs: seq<Group>, i: nat)
    requires i <= |gs|
    ensures |Ends(gs[..i])| <= |Ends(gs)|
    decreases |gs|
  {
    if i == |gs| {
      assert gs[..i] == gs;
    } else {
      EndsMonotone(Init(gs), i);
      assert Init(gs)[..i] == gs[..i];
      assert gs == Init(gs) + [Last(gs)];
      if Last(gs) in Init(gs) {
        var first, last := SpanExists(Init(gs), Last(gs));
        EndsGrow(Init(gs), Last(gs), Some(Pair(first, last)));
      } else {
        EndsGrow(Init(gs), Last(gs), None);
      }
    }
  }

  lemma {:induction false} SpanExists(gs: seq<Group>, g: Group) returns (first: int, last: int)
    requires g in gs
    ensures Spans(gs, g, first, last)
  {
    assert gs == Init(gs) + [Last(gs)];
    if g in Init(gs) {
      first, last := SpanExists(Init(gs), g);
      last := if Last(gs) == g then |gs| - 1 else last;
    } else {
      first, last := |gs| - 1, |gs| - 1;
    }
  }

  // ---------- Selection ----------

  /** The selected poll ids, or None when they exceed the cap. */
  ghost function SelectedIds(ps: seq<Poll>, gs: seq<Group>): Option<set<int>>
    requires |ps| == |gs|
  {
    if |Ends(gs)| > DASHBOARD_POLL_LIMIT then None else Some(EndIds(ps, gs))
  }

  /** Notes one poll in its group; fails when that would need one endpoint more than the cap. */
  method NotePoll(groups: map<Group, Pair>, count: nat, id: int, key: Group,
                  ghost spans: map<Group, Pair>, ghost ps: seq<Poll>, ghost gs: seq<Group>, ghost i: nat)
    returns (groups': map<Group, Pair>, count': nat, full: bool, ghost spans': map<Group, Pair>)
    requires |ps| == |gs| && i < |ps| && ps[i].id == id && gs[i] == key && DistinctIds(ps)
    requires Tracks(groups, spans, ps[..i], gs[..i]) && count == |Ends(gs[..i])| <= DASHBOARD_POLL_LIMIT
    ensures full ==> |Ends(gs[..i + 1])| > DASHBOARD_POLL_LIMIT
    ensures !full ==> Tracks(groups', spans', ps[..i + 1], gs[..i + 1])
    ensures !full ==> count' == |Ends(gs[..i + 1])| <= DASHBOARD_POLL_LIMIT
  {
    hide IsFirst, IsLast, Ends;
    groups', count', full, spans' := groups, count, false, spans;
    ghost var span := if key in spans then Some(spans[key]) else None;
    EndsGrow(gs[..i], key, span);
    assert gs[..i + 1] == gs[..i] + [key] && ps[..i + 1] == ps[..i] + [ps[i]];
    var known := key in groups;
    if !known || groups[key].first == groups[key].last {
      if count == DASHBOARD_POLL_LIMIT {
        full := true;
        return;
      }
      count' := count + 1;
    }
    var pair := if known then Pair(groups[key].first, id) else Pair(id, id);
    groups' := groups[key := pair];
    spans' := spans[key := Pair(if key in spans then spans[key].first else i, i)];
    TracksGrow(groups, groups', spans, spans', ps[..i], gs[..i], ps[i], key);
  }

  ghost predicate DistinctIds(ps: seq<Poll>) {
    forall i, j :: 0 <= i < j < |ps| ==> ps[i].id != ps[j].id
  }

  lemma {:induction false} TracksGrow(groups: map<Group, Pair>, groups': map<Group, Pair>, spans: map<Group, Pair>,
                                      spans': map<Group, Pair>, ps: seq<Poll>, gs: seq<Group>, p: Poll, g: Group)
    requires |ps| == |gs| && Tracks(groups, spans, ps, gs)
    requires g in spans || g !in gs
    requires spans' == spans[g := Pair(if g in spans then spans[g].first else |gs|, |gs|)]
    requires groups' == groups[g := Pair(if g in groups then groups[g].first else p.id, p.id)]
    ensures Tracks(groups', spans', ps + [p], gs + [g])
  {
    hide IsFirst, IsLast;
    forall h | h in spans' ensures Spans(gs + [g], h, spans'[h].first, spans'[h].last) {
      SpanStep(gs, g, h, if h in spans then Some(spans[h]) else None);
    }
  }

  lemma {:induction false} SpanStep(gs: seq<Group>, g: Group, h: Group, span: Option<Pair>)
    requires span.Some? ==> Spans(gs, h, span.value.first, span.value.last)
    requires span.None? ==> h == g && g !in gs
    ensures
      var first := if span.Some? then span.value.first else |gs|;
      Spans(gs + [g], h, first, if h == g then |gs| else span.value.last)
  {
    assert forall j :: 0 <= j < |gs| ==> (gs + [g])[j] == gs[j];
  }

  lemma {:induction false} NothingTracked(ps: seq<Poll>, gs: seq<Group>)
    requires |ps| == |gs|
    ensures Tracks(map[], map[], ps[..0], gs[..0]) && Ends(gs[..0]) == {}
  {
  }

  /** Increasing, so that no id is repeated. */
  ghost predicate Ascending(ids: seq<int>) {
    forall i, j :: 0 <= i < j < |ids| ==> ids[i] < ids[j]
  }

  /** The selected ids in order, or None for a fallback to every poll. */
  method DashboardPollIds(ps: seq<Poll>, d: int) returns (ids: Option<seq<int>>)
    requires Ordered(ps)
    ensures ids.Some? ==> Ascending(ids.value)
    ensures SelectedIds(ps, GroupsOf(ps, d)) == if ids.None? then None else Some(set id | id in ids.value)
  {
    hide Tracks, Ends, ClockBucketStart, Separate;
    ghost var gs := GroupsOf(ps, d);
    var groups, count, i := map[], 0, 0;
    ghost var spans: map<Group, Pair> := map[];
    NothingTracked(ps, gs);
    while i < |ps|
      invariant 0 <= i <= |ps|
      invariant Tracks(groups, spans, ps[..i], gs[..i])
      invariant count == |Ends(gs[..i])| <= DASHBOARD_POLL_LIMIT
    {
      var full;
      groups, count, full, spans :=
        NotePoll(groups, count, ps[i].id, Group(ClockBucketStart(ps[i].ts, d), ps[i].run), spans, ps, gs, i);
      if full {
        EndsMonotone(gs, i + 1);
        return None;
      }
      i := i + 1;
    }
    assert ps[..i] == ps && gs[..i] == gs;
    TrackedIds(groups, spans, ps, gs);
    TrackedApart(groups, spans, ps, gs);
    var listed := ListIds(groups);
    var sorted := SortIds(listed);
    assert (set id | id in sorted) == EndIds(ps, gs) by {
      assert forall id :: id in sorted <==> id in EndIds(ps, gs);
    }
    ids := Some(sorted);
  }

  ghost predicate Listed(groups: map<Group, Pair>, id: int) {
    exists g :: g in groups && IsEnd(groups[g], id)
  }

  predicate IsEnd(pair: Pair, id: int) {
    id == pair.first || id == pair.last
  }

  /** No poll ends two groups. */
  ghost predicate Separate(groups: map<Group, Pair>) {
    forall g, h, id :: g in groups && h in groups && IsEnd(groups[g], id) && IsEnd(groups[h], id) ==> g == h
  }

  ghost predicate NoneTwice(ids: seq<int>) {
    forall i, j :: 0 <= i < j < |ids| ==> ids[i] != ids[j]
  }

  /** Go ranges over the map in any order. */
  method ListIds(groups: map<Group, Pair>) returns (ids: seq<int>)
    requires Separate(groups)
    ensures NoneTwice(ids) && forall id :: id in ids <==> Listed(groups, id)
  {
    ids := [];
    var rest := groups.Keys;
    while rest != {}
      invariant rest <= groups.Keys
      invariant NoneTwice(ids)
      invariant forall id :: id in ids <==> exists g :: g in groups && g !in rest && IsEnd(groups[g], id)
    {
      var g :| g in rest;
      var pair := groups[g];
      assert pair.first !in ids && pair.last !in ids by {
        assert IsEnd(pair, pair.first) && IsEnd(pair, pair.last);
      }
      ghost var before := ids;
      ids := ids + [pair.first];
      if pair.last != pair.first {
        ids := ids + [pair.last];
      }
      assert forall id :: id in ids <==> id in before || IsEnd(pair, id);
      rest := rest - {g};
    }
  }

  /** The list with one more id at its place. */
  function InsertId(ids: seq<int>, id: int): (r: seq<int>)
    ensures |r| == |ids| + 1
  {
    if ids == [] || Last(ids) < id then ids + [id] else InsertId(Init(ids), id) + [Last(ids)]
  }

  lemma {:induction false} InsertIdAscends(ids: seq<int>, id: int)
    requires Ascending(ids) && id !in ids
    ensures Ascending(InsertId(ids, id))
    ensures forall x :: x in InsertId(ids, id) <==> x in ids || x == id
  {
    if ids != [] && id < Last(ids) {
      assert ids == Init(ids) + [Last(ids)];
      InsertIdAscends(Init(ids), id);
      var r := InsertId(Init(ids), id);
      forall i | 0 <= i < |r| ensures r[i] < Last(ids) {
        assert r[i] in r;
      }
    }
  }

  /** What `slices.Sort` makes of a list without repetitions. */
  method SortIds(ids: seq<int>) returns (sorted: seq<int>)
    requires NoneTwice(ids)
    ensures Ascending(sorted) && |sorted| == |ids| && forall id :: id in sorted <==> id in ids
  {
    sorted := [];
    var i := 0;
    while i < |ids|
      invariant 0 <= i <= |ids| && |sorted| == i && Ascending(sorted)
      invariant forall id :: id in sorted <==> id in ids[..i]
    {
      InsertIdAscends(sorted, ids[i]);
      sorted := InsertId(sorted, ids[i]);
      i := i + 1;
    }
    WholePrefix(ids);
  }

  lemma {:induction false} TrackedIds(groups: map<Group, Pair>, spans: map<Group, Pair>, ps: seq<Poll>, gs: seq<Group>)
    requires |ps| == |gs| && Tracks(groups, spans, ps, gs)
    ensures forall id :: id in EndIds(ps, gs) <==> Listed(groups, id)
  {
    forall id ensures id in EndIds(ps, gs) <==> Listed(groups, id) {
      hide Spans, Ends;
      if id in EndIds(ps, gs) {
        var i :| i in Ends(gs) && ps[i].id == id;
        EndsAreSpans(gs, i);
        SpanEnds(gs, gs[i], spans[gs[i]].first, spans[gs[i]].last, i);
      }
      if Listed(groups, id) {
        var g :| g in groups && IsEnd(groups[g], id);
        SpanEnds(gs, g, spans[g].first, spans[g].last, spans[g].first);
      }
    }
  }

  lemma {:induction false} TrackedApart(groups: map<Group, Pair>, spans: map<Group, Pair>, ps: seq<Poll>,
                                        gs: seq<Group>)
    requires |ps| == |gs| && Tracks(groups, spans, ps, gs) && DistinctIds(ps)
    ensures Separate(groups)
  {
    hide Ends, Spans;
    forall g, h, id | g in groups && h in groups && IsEnd(groups[g], id) && IsEnd(groups[h], id) ensures g == h {
      EndOfGroup(spans, ps, gs, g);
      EndOfGroup(spans, ps, gs, h);
    }
  }

  lemma {:induction false} EndOfGroup(spans: map<Group, Pair>, ps: seq<Poll>, gs: seq<Group>, g: Group)
    requires |ps| == |gs| && g in spans && Spans(gs, g, spans[g].first, spans[g].last)
    ensures 0 <= spans[g].first < |gs| && 0 <= spans[g].last < |gs| && gs[spans[g].first] == gs[spans[g].last] == g
  {
    SpanEnds(gs, g, spans[g].first, spans[g].last, spans[g].first);
  }

  lemma {:induction false} EndsAreSpans(gs: seq<Group>, i: int)
    requires i in Ends(gs)
    ensures 0 <= i < |gs| && gs[i] in gs
  {
  }

  /** The ends of a group are its span. */
  lemma {:induction false} SpanEnds(gs: seq<Group>, g: Group, first: int, last: int, i: int)
    requires Spans(gs, g, first, last) && 0 <= i < |gs| && gs[i] == g
    ensures i in Ends(gs) <==> i == first || i == last
    ensures 0 <= first <= last < |gs| && gs[first] == gs[last] == g && last in Ends(gs)
  {
  }

  // ---------- The dashboard read ----------

  predicate Sampled(bucket: int) {
    bucket == 30 * MINUTE || bucket == 120 * MINUTE
  }

  /** The polls behind the chart points: endpoints for the long ranges, every poll otherwise or past the cap. */
  ghost function ChartIds(db: seq<Poll>, start: int, end: int, bucket: int): Option<set<int>> {
    var window := Between(db, start, end + 1);
    if Sampled(bucket) then SelectedIds(window, GroupsOf(window, bucket)) else None
  }

  ghost function ChartPoints(db: seq<Poll>, start: int, end: int, bucket: int): seq<SeriesPoint> {
    Points(Folded(db, start, end, ChartIds(db, start, end, bucket)), BaselineOf(db, start, ZERO_TIME))
  }

  ghost function NativeSeries(db: seq<Poll>, start: int, end: int): SeriesData {
    SeriesOf(start, end, NativePoints(db, start, end, ZERO_TIME))
  }

  /** The chart points come from the selected polls; everything a reader takes as current is the plain read's. */
  ghost function DashboardResult(db: seq<Poll>, start: int, end: int, bucket: int): SeriesData {
    NativeSeries(db, start, end).(points := ChartPoints(db, start, end, bucket))
  }

  method DashboardSeries(db: seq<Poll>, start: int, end: int, bucket: int) returns (r: Result<SeriesData, ReadError>)
    requires Ordered(db)
    ensures r == if start < end then Success(DashboardResult(db, start, end, bucket)) else Failure(StartNotBeforeEnd)
  {
    if !Sampled(bucket) {
      r := ReadSeries(db, start, end);
      return;
    }
    if !(start < end) {
      return Failure(StartNotBeforeEnd);
    }
    BetweenOrdered(db, start, end + 1);
    var listed := DashboardPollIds(Between(db, start, end + 1), bucket);
    var ids := if listed.None? then None else Some(set id | id in listed.value);
    if ids.None? || ids.value == {} {
      EmptySelection(db, start, end, bucket, ids);
      var series := SeriesForPolls(db, start, end, ids, ZERO_TIME);
      return Success(series);
    }
    var values := ReadBaseline(db, start, ZERO_TIME);
    var previous := new BaselineTable(values);
    var clone := new BaselineTable(previous.values);
    var series := SeriesWithBaseline(db, start, end, ids, clone);
    series := WithNativeLatest(db, start, end, series, previous, ids);
    r := Success(series);
  }

  lemma {:induction false} EmptySelection(db: seq<Poll>, start: int, end: int, bucket: int, ids: Option<set<int>>)
    requires Sampled(bucket) && ids == ChartIds(db, start, end, bucket)
    requires ids.None? || ids.value == {}
    ensures DashboardResult(db, start, end, bucket) ==
            SeriesOf(start, end, Points(Folded(db, start, end, ids), BaselineOf(db, start, ZERO_TIME)))
  {
    var window := Between(db, start, end + 1);
    if ids.Some? {
      var gs := GroupsOf(window, bucket);
      if window != [] {
        FirstIsListed(window, gs);
      }
      assert Chosen(window, ids) == Chosen(window, None) == [];
    }
  }

  lemma {:induction false} FirstIsListed(ps: seq<Poll>, gs: seq<Group>)
    requires |ps| == |gs| && ps != []
    ensures EndIds(ps, gs) != {}
  {
    assert IsFirst(gs, 0);
    assert 0 in Ends(gs);
    assert ps[0].id in EndIds(ps, gs);
  }

  lemma {:induction false} NothingFolded(ps: seq<Poll>, ids: Option<set<int>>)
    requires Views(ps) == []
    ensures Views(Chosen(ps, ids)) == []
  {
    if ps != [] {
      NothingFolded(Init(ps), ids);
      if !Relevant(Last(ps)) {
        InitOfAppend(Chosen(Init(ps), ids), Last(ps));
      }
    }
  }

  /** The baseline read in two parts: the pre-window values overlaid with newer ones from inside the window. */
  function Overlay(db: seq<Poll>, start: int, latest: int): Baseline {
    if latest > start then BaselineOf(db, start, ZERO_TIME) + BaselineOf(db, latest, start)
    else BaselineOf(db, start, ZERO_TIME)
  }

  lemma {:induction false} FromZero(db: seq<Poll>, lo: int, hi: int)
    requires lo <= 0
    ensures Between(db, lo, hi) == Between(db, 0, hi)
  {
    if db != [] {
      FromZero(Init(db), lo, hi);
    }
  }

  lemma {:induction false} OverlayIsBaseline(db: seq<Poll>, start: int, latest: int)
    requires Ordered(db) && start <= latest
    ensures AgreeOnCounters(Overlay(db, start, latest), BaselineOf(db, latest, ZERO_TIME))
  {
    if latest > start {
      forall k | k in COUNTER_KEYS
        ensures LastCarrier(Between(db, 0, latest), k) ==
                if LastCarrier(Between(db, start, latest), k).Some? then LastCarrier(Between(db, start, latest), k)
                else LastCarrier(Between(db, 0, start), k)
      {
        if start >= 0 {
          BetweenSplit(db, 0, start, latest);
          LastCarrierConcat(Between(db, 0, start), Between(db, start, latest), k);
        } else {
          FromZero(db, start, latest);
          NothingBetween(db, 0, start);
        }
      }
    }
  }

  lemma {:induction false} FoldReachesLatest(db: seq<Poll>, start: int, latest: int)
    requires Ordered(db) && start <= latest
    ensures AgreeOnCounters(State(Views(Between(db, start, latest)), BaselineOf(db, start, ZERO_TIME)),
                            BaselineOf(db, latest, ZERO_TIME))
  {
    if start >= 0 {
      FoldReachesBaseline(db, ZERO_TIME, start, latest);
    } else {
      FromZero(db, start, latest);
      NothingBetween(db, 0, start);
      NothingBetween(db, 0, 0);
      assert AgreeOnCounters(BaselineOf(db, start, ZERO_TIME), BaselineOf(db, 0, ZERO_TIME));
      if latest >= 0 {
        FoldReachesBaseline(db, ZERO_TIME, 0, latest);
        FoldCongruence(Views(Between(db, 0, latest)), BaselineOf(db, start, ZERO_TIME), BaselineOf(db, 0, ZERO_TIME));
      } else {
        NothingBetween(db, 0, latest);
      }
    }
  }

  lemma {:induction false} LastView(ps: seq<Poll>)
    requires Views(ps) != []
    ensures exists p :: p in ps && Last(Views(ps)).ts == p.ts
  {
    assert Last(ps) in ps;
    if !Relevant(Last(ps)) {
      LastView(Init(ps));
      var p :| p in Init(ps) && Last(Views(Init(ps))).ts == p.ts;
      assert p in ps;
    }
  }

  lemma {:induction false} LatestIsInside(db: seq<Poll>, start: int, end: int)
    requires Views(Between(db, start, end + 1)) != []
    ensures start <= Last(Views(Between(db, start, end + 1))).ts <= end
  {
    LastView(Between(db, start, end + 1));
    BetweenContents(db, start, end + 1);
  }

  lemma {:induction false} ViewsAtLatest(db: seq<Poll>, start: int, end: int, latest: int)
    requires Ordered(db) && Views(Between(db, start, end + 1)) != []
    requires latest == Last(Views(Between(db, start, end + 1))).ts && start <= latest <= end
    ensures Views(Between(db, start, end + 1)) ==
            Views(Between(db, start, latest)) + Views(Between(db, latest, end + 1))
    ensures Views(Between(db, latest, end + 1)) != []
  {
    var early, late := Between(db, start, latest), Between(db, latest, end + 1);
    BetweenSplit(db, start, latest, end + 1);
    ViewsConcat(early, late);
    if Views(late) == [] {
      LastView(early);
      BetweenContents(db, start, latest);
    }
  }

  lemma {:induction false} SameTail(early: seq<Poll>, late: seq<Poll>, base: Baseline, tail: Baseline)
    requires late != [] && AgreeOnCounters(State(early, base), tail)
    ensures |Points(early + late, base)| > 0 && |Points(late, tail)| > 0
    ensures Last(Points(early + late, base)) == Last(Points(late, tail))
    ensures Points(early + late, base)[0].pollId == (early + late)[0].id
  {
    hide Points, State, PointOf, AgreeOnCounters;
    PointsConcat(early, late, base);
    FoldCongruence(late, State(early, base), tail);
    PointAt(early + late, base, 0);
    IdOfPoint((early + late)[0], State((early + late)[..0], base));
  }

  lemma {:induction false} IdOfPoint(p: Poll, base: Baseline)
    ensures PointOf(p, base).pollId == p.id
  {
  }

  /** Folding only the polls at the latest relevant timestamp, from the overlaid baselines, ends in the same point as
      folding the whole window from the pre-window baselines. */
  lemma {:induction false} NativeLatest(db: seq<Poll>, start: int, end: int, latest: int)
    requires Ordered(db) && start < end
    requires Views(Between(db, start, end + 1)) != [] && latest == Last(Views(Between(db, start, end + 1))).ts
    ensures start <= latest <= end
    ensures
      var native := SeriesOf(latest, end, Points(Folded(db, latest, end, None), Overlay(db, start, latest)));
      && native.latestPoint == NativeSeries(db, start, end).latestPoint
      && native.currentHostDisk == NativeSeries(db, start, end).currentHostDisk
    ensures NativeSeries(db, start, end).firstPollId == Views(Between(db, start, end + 1))[0].id
  {
    hide View, PointOf, Updated, Views, Overlay, AgreeOnCounters;
    LatestIsInside(db, start, end);
    ViewsAtLatest(db, start, end, latest);
    ChooseAll(Between(db, start, end + 1), None);
    ChooseAll(Between(db, latest, end + 1), None);
    var early, late := Views(Between(db, start, latest)), Views(Between(db, latest, end + 1));
    var base, tail := BaselineOf(db, start, ZERO_TIME), Overlay(db, start, latest);
    OverlayIsBaseline(db, start, latest);
    FoldReachesLatest(db, start, latest);
    SharedAgreement(State(early, base), tail, BaselineOf(db, latest, ZERO_TIME));
    SameTail(early, late, base, tail);
  }

  lemma {:induction false} SharedAgreement(x: Baseline, y: Baseline, z: Baseline)
    requires AgreeOnCounters(x, z) && AgreeOnCounters(y, z)
    ensures AgreeOnCounters(x, y)
  {
  }

  method ReadTail(db: seq<Poll>, start: int, latestStart: int, end: int, previous: BaselineTable)
    returns (native: SeriesData)
    requires Ordered(db) && previous.values == BaselineOf(db, start, ZERO_TIME)
    modifies previous
    ensures native ==
            SeriesOf(latestStart, end, Points(Folded(db, latestStart, end, None), Overlay(db, start, latestStart)))
  {
    if latestStart > start {
      var withinWindow := ReadBaseline(db, latestStart, start);
      previous.values := previous.values + withinWindow;
    }
    native := SeriesWithBaseline(db, latestStart, end, None, previous);
  }

  /** Replaces the sampled latest values by those of the last timestamp that has a relevant sample. */
  method WithNativeLatest(db: seq<Poll>, start: int, end: int, sampled: SeriesData, previous: BaselineTable,
                          ghost ids: Option<set<int>>)
    returns (series: SeriesData)
    requires Ordered(db) && start < end
    requires previous.values == BaselineOf(db, start, ZERO_TIME)
    requires sampled == SeriesOf(start, end, Points(Folded(db, start, end, ids), previous.values))
    modifies previous
    ensures series == NativeSeries(db, start, end).(points := sampled.points)
  {
    var relevant := Views(Between(db, start, end + 1));
    if |relevant| == 0 {
      series := sampled;
      NothingFolded(Between(db, start, end + 1), ids);
      NothingFolded(Between(db, start, end + 1), None);
      return;
    }
    var latestStart := Last(relevant).ts;
    NativeLatest(db, start, end, latestStart);
    var native := ReadTail(db, start, latestStart, end, previous);
    series := sampled.(latestPoint := native.latestPoint, currentHostDisk := native.currentHostDisk,
                       firstPollId := relevant[0].id);
  }
}
