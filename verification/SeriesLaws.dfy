/** What the fold's deltas mean, independently of the window that was read. */
module SeriesLaws {
  import opened Common
  import opened Polls
  import opened Series
  import opened SeriesReads
  import opened Downsample
  import opened DownsampleLaws

  // ---------- Every point against its own history ----------

  /** The last stored value of each counter in a list of polls. */
  function History(db: seq<Poll>): Baseline {
    map k | k in COUNTER_KEYS && LastCarrier(db, k).Some? :: Entry(LastCarrier(db, k).value, k)
  }

  lemma {:induction false} BetweenConcat(a: seq<Poll>, b: seq<Poll>, lo: int, hi: int)
    ensures Between(a + b, lo, hi) == Between(a, lo, hi) + Between(b, lo, hi)
  {
    if b == [] {
      assert a + b == a;
    } else {
      BetweenConcat(a, Init(b), lo, hi);
      InitOfConcat(a, b);
    }
  }

  lemma {:induction false} BetweenAll(db: seq<Poll>, lo: int, hi: int)
    requires forall p :: p in db ==> lo <= p.ts < hi
    ensures Between(db, lo, hi) == db
  {
    if db != [] {
      assert db == Init(db) + [Last(db)];
      BetweenAll(Init(db), lo, hi);
    }
  }

  /** A poll of the window with the polls stored before and after it. */
  ghost predicate Around(db: seq<Poll>, before: seq<Poll>, p: Poll, after: seq<Poll>, start: int, end: int) {
    && db == before + [p] + after
    && Ordered(before)
    && start <= p.ts <= end
    && (forall q :: q in before ==> q.ts <= end)
    && (forall q :: q in after ==> start <= q.ts)
  }

  lemma {:induction false} PrefixIsAround(db: seq<Poll>, m: nat, start: int, end: int)
    requires Ordered(db) && m < |db| && start <= db[m].ts <= end
    ensures Around(db, db[..m], db[m], db[m + 1..], start, end)
  {
    forall q | q in db[..m] ensures q.ts <= end {
      var i :| 0 <= i < m && db[i] == q;
      assert Before(db[i], db[m]);
    }
    forall q | q in db[m + 1..] ensures start <= q.ts {
      var i :| m < i < |db| && db[i] == q;
      assert Before(db[m], db[i]);
    }
  }

  lemma {:induction false} BeforeWindow(db: seq<Poll>, before: seq<Poll>, p: Poll, after: seq<Poll>, start: int,
                                        end: int)
    requires Around(db, before, p, after, start, end)
    ensures Between(db, ZERO_TIME, start) == Between(before, ZERO_TIME, start)
  {
    BetweenConcat(before + [p], after, ZERO_TIME, start);
    BetweenConcat(before, [p], ZERO_TIME, start);
    NothingBetween([p], ZERO_TIME, start);
    NothingBetween(after, ZERO_TIME, start);
  }

  lemma {:induction false} EmptyCarrier(k: Key)
    ensures LastCarrier([], k) == None
  {
  }

  lemma {:induction false} HistorySplits(before: seq<Poll>, start: int, end: int, k: Key)
    requires Ordered(before) && start <= end + 1 && forall q :: q in before ==> q.ts <= end
    ensures
      var inside := LastCarrier(Between(before, start, end + 1), k);
      LastCarrier(before, k) == if inside.Some? then inside else LastCarrier(Between(before, ZERO_TIME, start), k)
  {
    hide LastCarrier;
    if start < 0 {
      EmptyCarrier(k);
      BetweenAll(before, start, end + 1);
      NothingBetween(before, ZERO_TIME, start);
    } else {
      BetweenAll(before, ZERO_TIME, end + 1);
      BetweenSplit(before, ZERO_TIME, start, end + 1);
      LastCarrierConcat(Between(before, ZERO_TIME, start), Between(before, start, end + 1), k);
    }
  }

  /** Before a poll the window's fold state is the last stored value of each counter, whatever the window. */
  lemma {:induction false} StateIsHistory(db: seq<Poll>, before: seq<Poll>, p: Poll, after: seq<Poll>,
                                          start: int, end: int)
    requires Around(db, before, p, after, start, end)
    ensures AgreeOnCounters(State(Views(Between(before, start, end + 1)), BaselineOf(db, start, ZERO_TIME)),
                            History(before))
  {
    BeforeWindow(db, before, p, after, start, end);
    forall k | k in COUNTER_KEYS
      ensures
        var s, h := State(Views(Between(before, start, end + 1)), BaselineOf(db, start, ZERO_TIME)), History(before);
        (k in s <==> k in h) && (k in s ==> s[k] == h[k])
    {
      StateIsLastCarrier(Views(Between(before, start, end + 1)), BaselineOf(db, start, ZERO_TIME), k);
      ViewsKeepCarriers(Between(before, start, end + 1), k);
      HistorySplits(before, start, end, k);
    }
  }

  lemma {:induction false} WindowAround(db: seq<Poll>, before: seq<Poll>, p: Poll, after: seq<Poll>,
                                        start: int, end: int)
    requires Around(db, before, p, after, start, end) && Relevant(p)
    ensures Views(Between(db, start, end + 1)) ==
            Views(Between(before, start, end + 1)) + [View(p)] + Views(Between(after, start, end + 1))
  {
    BetweenConcat(before + [p], after, start, end + 1);
    BetweenConcat(before, [p], start, end + 1);
    BetweenAll([p], start, end + 1);
    ViewsConcat(Between(before, start, end + 1) + [p], Between(after, start, end + 1));
    ViewsConcat(Between(before, start, end + 1), [p]);
    assert Init([p]) == [];
  }

  /** Every native point is its poll measured against the last stored value of each counter before that poll. */
  lemma {:induction false} NativePointIsLocal(db: seq<Poll>, start: int, end: int, m: nat)
    requires Ordered(db) && m < |db| && start <= db[m].ts <= end && Relevant(db[m])
    ensures
      var i := |Views(Between(db[..m], start, end + 1))|;
      && i < |NativePoints(db, start, end, ZERO_TIME)|
      && NativePoints(db, start, end, ZERO_TIME)[i] == PointOf(View(db[m]), History(db[..m]))
  {
    PrefixIsAround(db, m, start, end);
    LocalPoint(db, db[..m], db[m], db[m + 1..], start, end);
  }

  lemma {:induction false} LocalPoint(db: seq<Poll>, before: seq<Poll>, p: Poll, after: seq<Poll>, start: int, end: int)
    requires Around(db, before, p, after, start, end) && Relevant(p)
    ensures
      var i := |Views(Between(before, start, end + 1))|;
      && i < |NativePoints(db, start, end, ZERO_TIME)|
      && NativePoints(db, start, end, ZERO_TIME)[i] == PointOf(View(p), History(before))
  {
    var earlier := Views(Between(before, start, end + 1));
    var base := BaselineOf(db, start, ZERO_TIME);
    ChooseAll(Between(db, start, end + 1), None);
    WindowAround(db, before, p, after, start, end);
    PointInside(earlier, View(p), Views(Between(after, start, end + 1)), base);
    StateIsHistory(db, before, p, after, start, end);
    PointCongruence(View(p), State(earlier, base), History(before));
  }

  lemma {:induction false} PointInside(earlier: seq<Poll>, p: Poll, later: seq<Poll>, base: Baseline)
    ensures |Points(earlier + [p] + later, base)| > |earlier|
    ensures Points(earlier + [p] + later, base)[|earlier|] == PointOf(p, State(earlier, base))
  {
    var all := earlier + [p] + later;
    PointAt(all, base, |earlier|);
    assert all[..|earlier|] == earlier;
  }

  /** The delta of a counter to the nearest earlier poll that has it, if that poll is of the same run and not above. */
  function NearestDelta(p: Poll, before: seq<Poll>, k: Key): Option<real> {
    var nearest := LastCarrier(before, k);
    if Carries(p, k) && nearest.Some? && nearest.value.run == p.run && ValueOf(nearest.value, k) <= ValueOf(p, k)
    then Some(ValueOf(p, k) - ValueOf(nearest.value, k))
    else None
  }

  lemma {:induction false} DeltaIsNearest(p: Poll, before: seq<Poll>, k: Key)
    requires k in COUNTER_KEYS && IsSeriesKey(k)
    ensures CounterDelta(View(p), History(before), k) == NearestDelta(p, before, k)
  {
  }

  /** Every delta of a native read spans the nearest earlier poll of the whole history that has the counter: it is
      present exactly if that poll belongs to the same run and the counter did not drop. */
  lemma {:induction false} DeltasSpanNearestCarrier(db: seq<Poll>, start: int, end: int, m: nat, f: Field)
    requires Ordered(db) && m < |db| && start <= db[m].ts <= end && Relevant(db[m]) && IsDelta(f)
    ensures
      var i := |Views(Between(db[..m], start, end + 1))|;
      && i < |NativePoints(db, start, end, ZERO_TIME)|
      && NativePoints(db, start, end, ZERO_TIME)[i].Value(f) == NearestDelta(db[m], db[..m], CounterOf(f))
  {
    NativePointIsLocal(db, start, end, m);
    DeltaIsNearest(db[m], db[..m], CounterOf(f));
  }

  // ---------- Telescoping ----------

  /** Every carrier in ps belongs to run r and values never drop below the running last value. */
  ghost predicate Steady(ps: seq<Poll>, k: Key, base: CounterValue) {
    ps == [] ||
    (&& Steady(Init(ps), k, base)
     && (Carries(Last(ps), k) ==>
           Last(ps).run == base.run && LastValue(Init(ps), k, base) <= ValueOf(Last(ps), k)))
  }

  function LastValue(ps: seq<Poll>, k: Key, base: CounterValue): real {
    if LastCarrier(ps, k).Some? then ValueOf(LastCarrier(ps, k).value, k) else base.value
  }

  function CountCarriers(ps: seq<Poll>, k: Key): nat {
    if ps == [] then 0 else CountCarriers(Init(ps), k) + if Carries(Last(ps), k) then 1 else 0
  }

  /** Inside one nondecreasing run the deltas sum to the last value minus the baseline, however many polls lack the
      counter, and every poll that has it has a delta. */
  lemma {:induction false} DeltasTelescope(ps: seq<Poll>, previous: Baseline, f: Field)
    requires IsDelta(f) && CounterOf(f) in previous
    requires Steady(ps, CounterOf(f), previous[CounterOf(f)])
    ensures
      var k, t := CounterOf(f), TallyOf(Points(ps, previous), f);
      t.sum == LastValue(ps, k, previous[k]) - previous[k].value && t.n == CountCarriers(ps, k)
  {
    hide PointOf, Updated;
    if ps != [] {
      var k := CounterOf(f);
      PointDelta(Last(ps), State(Init(ps), previous), f);
      DeltasTelescope(Init(ps), previous, f);
      StateIsLastCarrier(Init(ps), previous, k);
      SteadyState(Init(ps), previous, k);
      TallyAppend(Points(Init(ps), previous), PointOf(Last(ps), State(Init(ps), previous)), f);
    }
  }

  lemma {:induction false} PointDelta(p: Poll, base: Baseline, f: Field)
    requires IsDelta(f)
    ensures PointOf(p, base).Value(f) == CounterDelta(p, base, CounterOf(f))
  {
  }

  lemma {:induction false} SteadyState(ps: seq<Poll>, previous: Baseline, k: Key)
    requires k in previous && Steady(ps, k, previous[k])
    ensures k in State(ps, previous) && State(ps, previous)[k].run == previous[k].run
    ensures State(ps, previous)[k].value == LastValue(ps, k, previous[k])
  {
    if ps != [] {
      SteadyState(Init(ps), previous, k);
    }
  }
}
