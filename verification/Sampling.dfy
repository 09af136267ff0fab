/** How endpoint sampling relates to the raw history: a bound in general, exact totals under steady runs. */
module Sampling {
  import opened Common
  import opened Polls
  import opened Series
  import opened SeriesReads
  import opened SeriesLaws
  import opened Downsample
  import opened DownsampleLaws
  import opened Dashboard

  // ---------- One counter ----------

  type Reading = Option<CounterValue>

  function Read(base: Baseline, k: Key): Reading {
    if k in base then Some(base[k]) else None
  }

  function Next(r: Reading, p: Poll, k: Key): Reading {
    if Carries(p, k) then Some(Entry(p, k)) else r
  }

  function Gain(r: Reading, p: Poll, k: Key): Option<real> {
    if !Carries(p, k) || r.None? || r.value.run != p.run || ValueOf(p, k) < r.value.value then None
    else Some(ValueOf(p, k) - r.value.value)
  }

  /** The reading of a counter after a list of polls. */
  function After(ps: seq<Poll>, r: Reading, k: Key): Reading {
    if ps == [] then r else Next(After(Init(ps), r, k), Last(ps), k)
  }

  function GainValue(r: Reading, p: Poll, k: Key): real {
    if Gain(r, p, k).Some? then Gain(r, p, k).value else 0.0
  }

  function Total(ps: seq<Poll>, r: Reading, k: Key): real {
    if ps == [] then 0.0
    else Total(Init(ps), r, k) + GainValue(After(Init(ps), r, k), Last(ps), k)
  }

  lemma {:induction false} FoldReads(ps: seq<Poll>, base: Baseline, k: Key)
    requires IsSeriesKey(k)
    ensures Read(State(Views(ps), base), k) == After(ps, Read(base, k), k)
  {
    hide View, Relevant;
    if ps != [] {
      FoldReads(Init(ps), base, k);
      ViewCarries(Last(ps), k);
      if Relevant(Last(ps)) {
        InitOfAppend(Views(Init(ps)), View(Last(ps)));
      }
    }
  }

  /** The fold over the relevant polls computes exactly these totals. */
  lemma {:induction false} FoldTotals(ps: seq<Poll>, base: Baseline, f: Field)
    requires IsDelta(f)
    ensures TallyOf(Points(Views(ps), base), f).sum == Total(ps, Read(base, CounterOf(f)), CounterOf(f))
  {
    hide View, Relevant, Gain, Points, State, TallyOf;
    if ps == [] {
      NoTotal(base, f);
    } else {
      var views, p := Views(Init(ps)), Last(ps);
      FoldTotals(Init(ps), base, f);
      FoldReads(Init(ps), base, CounterOf(f));
      GainIsDelta(p, State(views, base), f);
      if Relevant(p) {
        OneMoreTotal(views, View(p), base, f);
      }
    }
  }

  lemma {:induction false} NoTotal(base: Baseline, f: Field)
    ensures TallyOf(Points([], base), f) == NO_TALLY
  {
  }

  lemma {:induction false} OneMoreTotal(views: seq<Poll>, p: Poll, base: Baseline, f: Field)
    ensures
      var delta := PointOf(p, State(views, base)).Value(f);
      TallyOf(Points(views + [p], base), f).sum ==
        TallyOf(Points(views, base), f).sum + if delta.Some? then delta.value else 0.0
  {
    OneMorePoint(views, p, base);
    TallyAppend(Points(views, base), PointOf(p, State(views, base)), f);
  }

  lemma {:induction false} OneMorePoint(views: seq<Poll>, p: Poll, base: Baseline)
    ensures Points(views + [p], base) == Points(views, base) + [PointOf(p, State(views, base))]
    ensures State(views + [p], base) == Updated(p, State(views, base))
  {
    hide PointOf, Updated;
    InitOfAppend(views, p);
  }

  lemma {:induction false} GainIsDelta(p: Poll, base: Baseline, f: Field)
    requires IsDelta(f)
    ensures Gain(Read(base, CounterOf(f)), p, CounterOf(f)) == PointOf(View(p), base).Value(f)
    ensures !Relevant(p) ==> !Carries(p, CounterOf(f)) && Gain(Read(base, CounterOf(f)), p, CounterOf(f)) == None
  {
    hide PointOf;
    PointDelta(View(p), base, f);
    GainIsCounterDelta(p, base, CounterOf(f));
  }

  lemma {:induction false} GainIsCounterDelta(p: Poll, base: Baseline, k: Key)
    requires IsSeriesKey(k)
    ensures Gain(Read(base, k), p, k) == CounterDelta(View(p), base, k)
    ensures !Relevant(p) ==> !Carries(p, k)
  {
    ViewCarries(p, k);
  }

  // ---------- The sampled total is a lower bound ----------

  /** The runs of a starting reading and of the polls that carry k, in order. */
  function RunsSeen(ps: seq<Poll>, r: Reading, k: Key): seq<Option<int>> {
    if ps == [] then (if r.Some? then [r.value.run] else [])
    else RunsSeen(Init(ps), r, k) + if Carries(Last(ps), k) then [Last(ps).run] else []
  }

  /** No run is left and entered again. */
  ghost predicate Contiguous(runs: seq<Option<int>>) {
    forall i, j, l :: 0 <= i <= j <= l < |runs| && runs[i] == runs[l] ==> runs[j] == runs[i]
  }

  /** What a later reading may still add to an earlier one. */
  function Slack(earlier: Reading, later: Reading): real {
    if earlier.None? || later.None? || earlier.value.run != later.value.run || later.value.value < earlier.value.value
    then 0.0
    else later.value.value - earlier.value.value
  }

  lemma {:induction false} ChosenStep(ps: seq<Poll>, ids: Option<set<int>>, r: Reading, k: Key)
    requires ps != []
    ensures
      var before, p := Chosen(Init(ps), ids), Last(ps);
      var picked := ids.None? || p.id in ids.value;
      && Total(Chosen(ps, ids), r, k) ==
           Total(before, r, k) + (if picked then GainValue(After(before, r, k), p, k) else 0.0)
      && After(Chosen(ps, ids), r, k) == if picked then Next(After(before, r, k), p, k) else After(before, r, k)
  {
    InitOfAppend(Chosen(Init(ps), ids), Last(ps));
  }

  lemma {:induction false} LastReadingIsSeen(ps: seq<Poll>, r: Reading, k: Key)
    ensures RunsSeen(ps, r, k) != [] <==> After(ps, r, k).Some?
    ensures After(ps, r, k).Some? ==> Last(RunsSeen(ps, r, k)) == After(ps, r, k).value.run
  {
    if ps != [] {
      LastReadingIsSeen(Init(ps), r, k);
    }
  }

  lemma {:induction false} ChosenReadingIsSeen(ps: seq<Poll>, ids: Option<set<int>>, r: Reading, k: Key)
    ensures After(Chosen(ps, ids), r, k).Some? ==>
              && After(ps, r, k).Some?
              && After(Chosen(ps, ids), r, k).value.run in RunsSeen(ps, r, k)
  {
    if ps != [] {
      hide Chosen, Total;
      ChosenReadingIsSeen(Init(ps), ids, r, k);
      ChosenStep(ps, ids, r, k);
    }
  }

  /** Dropping polls from a contiguous history never raises the total of a counter. */
  lemma {:induction false} DroppingPollsLosesTotal(ps: seq<Poll>, ids: Option<set<int>>, r: Reading, k: Key)
    requires Contiguous(RunsSeen(ps, r, k))
    ensures Total(Chosen(ps, ids), r, k) + Slack(After(Chosen(ps, ids), r, k), After(ps, r, k)) <= Total(ps, r, k)
  {
    if ps != [] {
      var init, p := Init(ps), Last(ps);
      ContiguousInit(p, RunsSeen(init, r, k), RunsSeen(ps, r, k), k);
      DroppingPollsLosesTotal(init, ids, r, k);
      LastReadingIsSeen(init, r, k);
      ChosenReadingIsSeen(init, ids, r, k);
      ChosenStep(ps, ids, r, k);
      if Carries(p, k) {
        StepBound(Total(Chosen(init, ids), r, k), Total(init, r, k), After(Chosen(init, ids), r, k), After(init, r, k),
                  RunsSeen(init, r, k), p, k, ids.None? || p.id in ids.value);
      }
    }
  }

  lemma {:induction false} StepBound(ts: real, tn: real, s: Reading, n: Reading, runs: seq<Option<int>>, p: Poll,
                                     k: Key,
                                     picked: bool)
    requires ts + Slack(s, n) <= tn
    requires Carries(p, k) && Contiguous(runs + [p.run])
    requires s.Some? ==> n.Some? && s.value.run in runs
    requires n.Some? ==> runs != [] && Last(runs) == n.value.run
    ensures
      var ts' := ts + if picked then GainValue(s, p, k) else 0.0;
      ts' + Slack(if picked then Next(s, p, k) else s, Next(n, p, k)) <= tn + GainValue(n, p, k)
  {
    Triangle(runs, s, n, p, k);
  }

  lemma {:induction false} ContiguousInit(p: Poll, runs: seq<Option<int>>, all: seq<Option<int>>, k: Key)
    requires all == runs + (if Carries(p, k) then [p.run] else []) && Contiguous(all)
    ensures Contiguous(runs)
  {
    forall i, j, l | 0 <= i <= j <= l < |runs| && runs[i] == runs[l] ensures runs[j] == runs[i] {
      assert all[i] == all[l];
      assert all[j] == all[i];
    }
  }

  lemma {:induction false} Triangle(runs: seq<Option<int>>, s: Reading, n: Reading, p: Poll, k: Key)
    requires Carries(p, k) && Contiguous(runs + [p.run])
    requires s.Some? ==> n.Some? && s.value.run in runs
    requires n.Some? ==> runs != [] && Last(runs) == n.value.run
    ensures Slack(s, Some(Entry(p, k))) <= Slack(s, n) + Slack(n, Some(Entry(p, k)))
  {
    if s.Some? && s.value.run == p.run {
      var all := runs + [p.run];
      var i :| 0 <= i < |runs| && runs[i] == s.value.run;
      assert all[i] == all[|runs|] && all[|runs| - 1] == n.value.run;
      assert n.value.run == p.run;
    }
  }

  /** With contiguous runs the sampled total of a counter over the window never exceeds the native total. */
  lemma {:induction false} SampledTotalAtMostNative(db: seq<Poll>, start: int, end: int, bucket: int, f: Field)
    requires IsDelta(f)
    requires
      var k := CounterOf(f);
      Contiguous(RunsSeen(Between(db, start, end + 1), Read(BaselineOf(db, start, ZERO_TIME), k), k))
    ensures TallyOf(ChartPoints(db, start, end, bucket), f).sum <=
            TallyOf(NativePoints(db, start, end, ZERO_TIME), f).sum
  {
    var k, window := CounterOf(f), Between(db, start, end + 1);
    var base, ids := BaselineOf(db, start, ZERO_TIME), ChartIds(db, start, end, bucket);
    ChooseAll(window, None);
    FoldTotals(window, base, f);
    FoldTotals(Chosen(window, ids), base, f);
    DroppingPollsLosesTotal(window, ids, Read(base, k), k);
  }

  lemma {:induction false} TotalNext(ps: seq<Poll>, p: Poll, r: Reading, k: Key)
    ensures Total(ps + [p], r, k) == Total(ps, r, k) + GainValue(After(ps, r, k), p, k)
    ensures After(ps + [p], r, k) == Next(After(ps, r, k), p, k)
  {
    InitOfAppend(ps, p);
  }
}
