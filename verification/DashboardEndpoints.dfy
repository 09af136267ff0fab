/** The long-range charts are the plain charts of a history in which only first and last polls are left. */
module DashboardEndpoints {
  import opened Common
  import opened Polls
  import opened Series
  import opened SeriesReads
  import opened Dashboard
  import Downsample

  // ---------- Endpoints ----------

  predicate Covers(k: int, width: int, ts: int) {
    k * width <= ts < (k + 1) * width
  }

  /** Polls of one run, or of none, in one stretch of the clock. */
  ghost predicate Together(p: Poll, q: Poll, width: int) {
    p.run == q.run && exists k :: Covers(k, width, p.ts) && Covers(k, width, q.ts)
  }

  predicate Inside(p: Poll, start: int, end: int) {
    start <= p.ts <= end
  }

  /** A poll of the window with an earlier and a later one of its kind inside the window. */
  ghost predicate Skipped(db: seq<Poll>, p: Poll, start: int, end: int, width: int) {
    Inside(p, start, end) && PrecededIn(db, p, start, end, width) && FollowedIn(db, p, start, end, width)
  }

  ghost predicate PrecededIn(db: seq<Poll>, p: Poll, start: int, end: int, width: int) {
    exists q :: q in db && Inside(q, start, end) && Together(q, p, width) && Before(q, p)
  }

  ghost predicate FollowedIn(db: seq<Poll>, p: Poll, start: int, end: int, width: int) {
    exists q :: q in db && Inside(q, start, end) && Together(p, q, width) && Before(p, q)
  }

  /** The history without the skipped polls. */
  ghost predicate IsThinned(thin: seq<Poll>, db: seq<Poll>, start: int, end: int, width: int) {
    Ordered(thin) && forall p :: p in thin <==> p in db && !Skipped(db, p, start, end, width)
  }

  // ---------- The groups of the selection ----------

  lemma {:induction false} StretchOf(ts: int, width: int)
    requires width > 0
    ensures Covers(ts / width, width, ts)
  {
  }

  lemma {:induction false} OnlyStretch(k: int, ts: int, width: int)
    requires width > 0 && Covers(k, width, ts)
    ensures k == ts / width
  {
    StretchOf(ts, width);
    OneMultiple(k, ts / width, width, ts);
  }

  lemma {:induction false} OneMultiple(k: int, l: int, width: int, ts: int)
    requires width > 0 && Covers(k, width, ts) && Covers(l, width, ts)
    ensures k == l
  {
    Stretches(k, l, width);
    Stretches(l, k, width);
  }

  lemma {:induction false} Stretches(k: int, l: int, width: int)
    requires width > 0
    ensures k < l ==> (k + 1) * width <= l * width
  {
    if k < l {
      assert (l - k - 1) * width >= 0;
    }
  }

  lemma {:induction false} TogetherIsOneGroup(p: Poll, q: Poll, width: int)
    requires width > 0
    ensures Together(p, q, width) <==>
            Downsample.ClockBucketStart(p.ts, width) == Downsample.ClockBucketStart(q.ts, width) && p.run == q.run
  {
    StretchOf(p.ts, width);
    StretchOf(q.ts, width);
    if Together(p, q, width) {
      var k :| Covers(k, width, p.ts) && Covers(k, width, q.ts);
      OnlyStretch(k, p.ts, width);
      OnlyStretch(k, q.ts, width);
    }
    StartOfStretch(p.ts, width);
    StartOfStretch(q.ts, width);
    if Downsample.ClockBucketStart(p.ts, width) == Downsample.ClockBucketStart(q.ts, width) {
      SameStart(p.ts / width, q.ts / width, width);
    }
  }

  lemma {:induction false} StartOfStretch(ts: int, width: int)
    requires width > 0
    ensures Downsample.ClockBucketStart(ts, width) == (ts / width) * width
  {
  }

  lemma {:induction false} SameStart(a: int, b: int, width: int)
    requires width > 0 && a * width == b * width
    ensures a == b
  {
    assert (a - b) * width == 0;
  }

  /** The places of a window that are the end of a group are those of the polls that are not skipped. */
  lemma {:induction false} EndsAreUnskipped(db: seq<Poll>, start: int, end: int, width: int, i: nat)
    requires Ordered(db) && width > 0 && i < |Between(db, start, end + 1)|
    ensures
      var ps := Between(db, start, end + 1);
      i in Ends(GroupsOf(ps, width)) <==> !Skipped(db, ps[i], start, end, width)
  {
    var ps := Between(db, start, end + 1);
    var gs := GroupsOf(ps, width);
    hide GroupsOf, Together, Downsample.ClockBucketStart;
    BetweenOrdered(db, start, end + 1);
    BetweenContents(db, start, end + 1);
    assert ps[i] in ps;
    FirstIsUnpreceded(db, ps, start, end, width, i);
    LastIsUnfollowed(db, ps, start, end, width, i);
  }

  lemma {:induction false} FirstIsUnpreceded(db: seq<Poll>, ps: seq<Poll>, start: int, end: int, width: int, i: nat)
    requires Ordered(ps) && width > 0 && i < |ps|
    requires forall p :: p in ps <==> p in db && Inside(p, start, end)
    ensures IsFirst(GroupsOf(ps, width), i) <==> !PrecededIn(db, ps[i], start, end, width)
  {
    var gs := GroupsOf(ps, width);
    hide Together, Downsample.ClockBucketStart;
    if PrecededIn(db, ps[i], start, end, width) {
      var q :| q in db && Inside(q, start, end) && Together(q, ps[i], width) && Before(q, ps[i]);
      var j :| 0 <= j < |ps| && ps[j] == q;
      TogetherIsOneGroup(q, ps[i], width);
      assert j < i by {
        assert i < j ==> Before(ps[i], ps[j]);
      }
      assert gs[j] == gs[i];
    } else {
      forall j | 0 <= j < i ensures gs[j] != gs[i] {
        TogetherIsOneGroup(ps[j], ps[i], width);
        assert ps[j] in ps && Before(ps[j], ps[i]);
      }
    }
  }

  lemma {:induction false} LastIsUnfollowed(db: seq<Poll>, ps: seq<Poll>, start: int, end: int, width: int, i: nat)
    requires Ordered(ps) && width > 0 && i < |ps|
    requires forall p :: p in ps <==> p in db && Inside(p, start, end)
    ensures IsLast(GroupsOf(ps, width), i) <==> !FollowedIn(db, ps[i], start, end, width)
  {
    var gs := GroupsOf(ps, width);
    hide Together, Downsample.ClockBucketStart;
    if FollowedIn(db, ps[i], start, end, width) {
      var q :| q in db && Inside(q, start, end) && Together(ps[i], q, width) && Before(ps[i], q);
      var j :| 0 <= j < |ps| && ps[j] == q;
      TogetherIsOneGroup(ps[i], q, width);
      assert i < j by {
        assert j < i ==> Before(ps[j], ps[i]);
      }
      assert gs[j] == gs[i];
    } else {
      forall j | i < j < |ps| ensures gs[j] != gs[i] {
        TogetherIsOneGroup(ps[i], ps[j], width);
        assert ps[j] in ps && Before(ps[i], ps[j]);
      }
    }
  }

  /** The selection keeps the window's unskipped polls, as many as there are endpoints. */
  lemma {:induction false} SelectionIsUnskipped(db: seq<Poll>, start: int, end: int, width: int)
    requires Ordered(db) && width > 0
    ensures
      var ps := Between(db, start, end + 1);
      var ids := EndIds(ps, GroupsOf(ps, width));
      && (forall p :: p in Chosen(ps, Some(ids)) <==>
                      p in db && Inside(p, start, end) && !Skipped(db, p, start, end, width))
      && |Chosen(ps, Some(ids))| == |Ends(GroupsOf(ps, width))|
  {
    var ps := Between(db, start, end + 1);
    var gs := GroupsOf(ps, width);
    var ids := EndIds(ps, gs);
    hide GroupsOf, Skipped, Ends;
    BetweenOrdered(db, start, end + 1);
    BetweenContents(db, start, end + 1);
    ChosenAreListed(ps, Some(ids));
    forall i | 0 <= i < |ps|
      ensures ps[i].id in ids <==> i in Ends(gs)
      ensures ps[i].id in ids <==> !Skipped(db, ps[i], start, end, width)
    {
      ListedIsEnd(ps, gs, i);
      EndsAreUnskipped(db, start, end, width, i);
    }
    forall p ensures p in Chosen(ps, Some(ids)) <==>
                     p in db && Inside(p, start, end) && !Skipped(db, p, start, end, width) {
      if p in ps {
        var i :| 0 <= i < |ps| && ps[i] == p;
      }
    }
    ChosenPlaces(ps, ids);
    assert Ends(gs) == Places(ps, ids) by {
      EndsAreInside(gs);
    }
  }

  lemma {:induction false} EndsAreInside(gs: seq<Group>)
    ensures forall i :: i in Ends(gs) ==> 0 <= i < |gs|
  {
  }

  lemma {:induction false} ListedIsEnd(ps: seq<Poll>, gs: seq<Group>, i: nat)
    requires Ordered(ps) && |gs| == |ps| && i < |ps|
    ensures ps[i].id in EndIds(ps, gs) <==> i in Ends(gs)
  {
    hide Ends;
    EndsAreInside(gs);
    if ps[i].id in EndIds(ps, gs) {
      var j :| j in Ends(gs) && ps[j].id == ps[i].id;
      assert j == i;
    }
  }

  function Places(ps: seq<Poll>, ids: set<int>): set<int> {
    set i | 0 <= i < |ps| && ps[i].id in ids
  }

  lemma {:induction false} ChosenPlaces(ps: seq<Poll>, ids: set<int>)
    ensures |Chosen(ps, Some(ids))| == |Places(ps, ids)|
  {
    if ps != [] {
      ChosenPlaces(Init(ps), ids);
      if Last(ps).id in ids {
        assert Places(ps, ids) == Places(Init(ps), ids) + {|ps| - 1};
      } else {
        assert Places(ps, ids) == Places(Init(ps), ids);
      }
    }
  }

  // ---------- Histories with the same polls ----------

  lemma {:induction false} SameListing(a: seq<Poll>, b: seq<Poll>)
    requires Ordered(a) && Ordered(b) && forall p :: p in a <==> p in b
    ensures a == b
  {
    LastIsLatest(a);
    LastIsLatest(b);
    if a != [] && b != [] {
      forall p ensures p in Init(a) <==> p in Init(b) {
        InitLacksLast(a, p);
        InitLacksLast(b, p);
      }
      SameListing(Init(a), Init(b));
      assert a == Init(a) + [Last(a)] && b == Init(b) + [Last(b)];
    }
  }

  lemma {:induction false} LastIsLatest(a: seq<Poll>)
    requires Ordered(a)
    ensures a != [] ==> Last(a) in a && forall p :: p in a ==> p == Last(a) || Before(p, Last(a))
  {
  }

  lemma {:induction false} InitLacksLast(a: seq<Poll>, p: Poll)
    requires Ordered(a) && a != []
    ensures p in Init(a) <==> p in a && p != Last(a)
  {
    assert a == Init(a) + [Last(a)];
  }

  /** Some history is the thinned one. */
  lemma {:induction false} ThinnedExists(db: seq<Poll>, start: int, end: int, width: int) returns (thin: seq<Poll>)
    requires Ordered(db)
    ensures IsThinned(thin, db, start, end, width)
  {
    hide Skipped;
    var ids := set p | p in db && !Skipped(db, p, start, end, width) :: p.id;
    thin := Chosen(db, Some(ids));
    ChosenOrdered(db, Some(ids));
    ChosenAreListed(db, Some(ids));
    forall p | p in db ensures p.id in ids <==> !Skipped(db, p, start, end, width) {
      if p.id in ids {
        var q :| q in db && !Skipped(db, q, start, end, width) && q.id == p.id;
        var i :| 0 <= i < |db| && db[i] == p;
        var j :| 0 <= j < |db| && db[j] == q;
      }
    }
  }

  lemma {:induction false} ThinnedParts(db: seq<Poll>, thin: seq<Poll>, start: int, end: int, width: int)
    requires Ordered(db) && width > 0 && IsThinned(thin, db, start, end, width)
    ensures
      var ps := Between(db, start, end + 1);
      && Between(thin, start, end + 1) == Chosen(ps, Some(EndIds(ps, GroupsOf(ps, width))))
      && Between(thin, ZERO_TIME, start) == Between(db, ZERO_TIME, start)
  {
    var ps := Between(db, start, end + 1);
    var ids := EndIds(ps, GroupsOf(ps, width));
    SelectionIsUnskipped(db, start, end, width);
    BetweenOrdered(db, start, end + 1);
    ChosenOrdered(ps, Some(ids));
    BetweenOrdered(thin, start, end + 1);
    BetweenContents(thin, start, end + 1);
    SameListing(Between(thin, start, end + 1), Chosen(ps, Some(ids)));
    BetweenOrdered(db, ZERO_TIME, start);
    BetweenContents(db, ZERO_TIME, start);
    BetweenOrdered(thin, ZERO_TIME, start);
    BetweenContents(thin, ZERO_TIME, start);
    SameListing(Between(thin, ZERO_TIME, start), Between(db, ZERO_TIME, start));
  }

  predicate LongRange(bucket: int) {
    bucket == 1_800_000_000_000 || bucket == 7_200_000_000_000
  }

  /** The half-hour and two-hour charts show the thinned history if its window holds at most 4096 polls; every other
      chart shows the history itself, and the current values are always those of the history itself. */
  lemma {:induction false} ChartsShowEndpoints(db: seq<Poll>, thin: seq<Poll>, start: int, end: int, bucket: int)
    requires Ordered(db) && (LongRange(bucket) ==> IsThinned(thin, db, start, end, bucket))
    ensures
      var plain := SeriesOf(start, end, NativePoints(db, start, end, ZERO_TIME));
      var thinned := LongRange(bucket) && |Between(thin, start, end + 1)| <= 4096;
      DashboardResult(db, start, end, bucket) ==
        plain.(points := NativePoints(if thinned then thin else db, start, end, ZERO_TIME))
  {
    hide SeriesOf, IsThinned;
    var ps := Between(db, start, end + 1);
    if LongRange(bucket) {
      ThinnedParts(db, thin, start, end, bucket);
      SelectionIsUnskipped(db, start, end, bucket);
      ChooseAll(Between(thin, start, end + 1), None);
      SameBaseline(thin, db, start);
    }
  }

  lemma {:induction false} SameBaseline(a: seq<Poll>, b: seq<Poll>, start: int)
    requires Between(a, ZERO_TIME, start) == Between(b, ZERO_TIME, start)
    ensures BaselineOf(a, start, ZERO_TIME) == BaselineOf(b, start, ZERO_TIME)
  {
  }
}
