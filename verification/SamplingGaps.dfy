/** The exact shortfall of a counter total when any polls are dropped and any samples are missing. */
module SamplingGaps {
  import opened Common
  import opened Polls
  import opened Series
  import opened SeriesReads
  import opened Downsample
  import opened Dashboard
  import opened Sampling
  import opened SamplingLoss

  /** The values that the carriers of a run have from one chosen carrier to the next. Before the first chosen one it has
      no chosen end on the left, after the last one none on the right. */
  datatype Stretch = Stretch(values: seq<real>, left: bool, right: bool)

  /** What a walk over the carriers has seen: the finished stretches and the open one of the current run. */
  datatype Walk = Walk(done: seq<Stretch>, run: Option<int>, open: seq<real>, anchored: bool)
  {
    function All(): seq<Stretch> {
      if open == [] then done else done + [Stretch(open, anchored, false)]
    }
  }

  /** A starting reading counts as a chosen carrier. */
  function Begin(r: Reading): Walk {
    if r.None? then Walk([], None, [], false) else Walk([], r.value.run, [r.value.value], true)
  }

  function Step(w: Walk, run: Option<int>, v: real, chosen: bool): Walk {
    if w.open == [] || w.run != run then Walk(w.All(), run, [v], chosen)
    else if chosen then Walk(w.done + [Stretch(w.open + [v], w.anchored, true)], run, [v], true)
    else w.(open := w.open + [v])
  }

  predicate IsChosen(p: Poll, ids: Option<set<int>>) {
    ids.None? || p.id in ids.value
  }

  function Walked(ps: seq<Poll>, ids: Option<set<int>>, r: Reading, k: Key): Walk {
    if ps == [] then Begin(r)
    else
      var w, p := Walked(Init(ps), ids, r, k), Last(ps);
      if Carries(p, k) then Step(w, p.run, ValueOf(p, k), IsChosen(p, ids)) else w
  }

  function Stretches(ps: seq<Poll>, ids: Option<set<int>>, r: Reading, k: Key): seq<Stretch> {
    Walked(ps, ids, r, k).All()
  }

  /** Between two chosen carriers the smaller of rises and falls is lost, outside them every rise. */
  function LossOf(s: Stretch): real {
    if s.left && s.right then Loss(s.values) else Rises(s.values)
  }

  function TotalLoss(ss: seq<Stretch>): real {
    if ss == [] then 0.0 else TotalLoss(Init(ss)) + LossOf(Last(ss))
  }

  ghost predicate Lossless(s: Stretch) {
    if s.left && s.right then Monotone(s.values)
    else forall i :: 0 < i < |s.values| ==> s.values[i - 1] >= s.values[i]
  }

  lemma {:induction false} TotalLossAppend(ss: seq<Stretch>, s: Stretch)
    ensures TotalLoss(ss + [s]) == TotalLoss(ss) + LossOf(s)
  {
    InitOfAppend(ss, s);
  }

  lemma {:induction false} LosslessMeans(s: Stretch)
    ensures LossOf(s) >= 0.0 && (LossOf(s) == 0.0 <==> Lossless(s))
  {
    hide Rises, Loss, Monotone;
    LosslessIffMonotone(s.values);
    NoRises(s.values);
  }

  lemma {:induction false} NothingLostIff(ss: seq<Stretch>)
    ensures TotalLoss(ss) >= 0.0
    ensures TotalLoss(ss) == 0.0 <==> forall s :: s in ss ==> Lossless(s)
  {
    hide LossOf, Lossless;
    if ss != [] {
      NothingLostIff(Init(ss));
      LosslessMeans(Last(ss));
      assert ss == Init(ss) + [Last(ss)];
    }
  }

  // ---------- The walk follows both folds ----------

  /** The native fold reads the end of the open stretch; the sampled one its beginning, or another run. */
  ghost predicate Follows(w: Walk, native: Reading, sampled: Reading, runs: seq<Option<int>>) {
    && (native.None? <==> w.open == [])
    && (sampled.Some? ==> native.Some? && sampled.value.run in runs)
    && (native.Some? ==>
          && native.value.run == w.run && native.value.value == Last(w.open) && runs != [] && Last(runs) == w.run
          && if w.anchored then sampled.Some? && sampled.value.run == w.run && sampled.value.value == w.open[0]
             else sampled.Some? ==> sampled.value.run != w.run)
  }

  lemma {:induction false} BeginFollows(r: Reading, runs: seq<Option<int>>)
    requires runs == if r.Some? then [r.value.run] else []
    ensures Follows(Begin(r), r, r, runs) && TotalLoss(Begin(r).All()) == 0.0
  {
    if r.Some? {
      TotalLossAppend([], Stretch([r.value.value], true, false));
    }
  }

  /** A carrier of a run that is not the one before: nothing is gained by either fold. */
  lemma {:induction false} NewRun(w: Walk, native: Reading, sampled: Reading, runs: seq<Option<int>>, p: Poll, k: Key,
                                  chosen: bool)
    requires Follows(w, native, sampled, runs) && Carries(p, k) && Contiguous(runs + [p.run])
    requires w.open == [] || w.run != p.run
    ensures
      var next := Step(w, p.run, ValueOf(p, k), chosen);
      && Follows(next, Next(native, p, k), if chosen then Next(sampled, p, k) else sampled, runs + [p.run])
      && TotalLoss(next.All()) == TotalLoss(w.All())
      && GainValue(native, p, k) == 0.0 && (chosen ==> GainValue(sampled, p, k) == 0.0)
  {
    hide TotalLoss;
    LeftBehind(native, sampled, w.run, runs, p);
    TotalLossAppend(w.All(), Stretch([ValueOf(p, k)], chosen, false));
  }

  /** A run that was left is not entered again. */
  lemma {:induction false} LeftBehind(native: Reading, sampled: Reading, run: Option<int>, runs: seq<Option<int>>,
                                      p: Poll)
    requires native.Some? ==> native.value.run == run && runs != [] && Last(runs) == run && run != p.run
    requires sampled.Some? ==> native.Some? && sampled.value.run in runs
    requires Contiguous(runs + [p.run])
    ensures sampled.Some? ==> sampled.value.run != p.run
  {
    var all := runs + [p.run];
    if native.Some? {
      forall i | 0 <= i < |runs| ensures runs[i] != p.run {
        assert all[i] == runs[i] && all[|runs| - 1] == run && all[|runs|] == p.run;
      }
    }
  }

  /** A further carrier of the run: the native fold gains a rise; the sampled one what it has missed, if it had
      begun. */
  lemma {:induction false} SameRun(w: Walk, native: Reading, sampled: Reading, runs: seq<Option<int>>, p: Poll, k: Key,
                                   chosen: bool)
    requires Follows(w, native, sampled, runs) && Carries(p, k) && w.open != [] && w.run == p.run
    ensures
      var next := Step(w, p.run, ValueOf(p, k), chosen);
      && Follows(next, Next(native, p, k), if chosen then Next(sampled, p, k) else sampled, runs + [p.run])
      && TotalLoss(next.All()) ==
         TotalLoss(w.All()) + GainValue(native, p, k) - if chosen then GainValue(sampled, p, k) else 0.0
  {
    hide TotalLoss, Rises, Falls, Contiguous;
    var v := ValueOf(p, k);
    RisesNext(w.open, v);
    RisesMinusFalls(w.open + [v]);
    TotalLossAppend(w.done, Stretch(w.open, w.anchored, false));
    TotalLossAppend(w.done, Stretch(w.open + [v], w.anchored, chosen));
    if chosen {
      SingleRises(v);
      TotalLossAppend(w.done + [Stretch(w.open + [v], w.anchored, true)], Stretch([v], true, false));
    }
  }

  lemma {:induction false} SingleRises(v: real)
    ensures Rises([v]) == 0.0
  {
  }

  lemma {:induction false} RunsNext(ps: seq<Poll>, r: Reading, k: Key)
    requires ps != [] && Contiguous(RunsSeen(ps, r, k))
    ensures Contiguous(RunsSeen(Init(ps), r, k))
  {
    ContiguousInit(Last(ps), RunsSeen(Init(ps), r, k), RunsSeen(ps, r, k), k);
  }

  /** For any polls dropped from a contiguous history, whatever samples it lacks: the total falls short by exactly the
      losses of the stretches between the carriers that are left. */
  lemma {:induction false} DroppedTotal(ps: seq<Poll>, ids: Option<set<int>>, r: Reading, k: Key)
    requires Contiguous(RunsSeen(ps, r, k))
    ensures Follows(Walked(ps, ids, r, k), After(ps, r, k), After(Chosen(ps, ids), r, k), RunsSeen(ps, r, k))
    ensures Total(ps, r, k) - Total(Chosen(ps, ids), r, k) == TotalLoss(Stretches(ps, ids, r, k))
  {
    hide Follows, Step, TotalLoss, Contiguous, Next, GainValue, Chosen, Carries;
    if ps == [] {
      ChooseAll(ps, ids);
      BeginFollows(r, RunsSeen(ps, r, k));
    } else {
      var w, p := Walked(Init(ps), ids, r, k), Last(ps);
      var native, sampled := After(Init(ps), r, k), After(Chosen(Init(ps), ids), r, k);
      RunsNext(ps, r, k);
      DroppedTotal(Init(ps), ids, r, k);
      ChosenStep(ps, ids, r, k);
      if !Carries(p, k) {
        NothingCarried(native, p, k);
        NothingCarried(sampled, p, k);
        assert RunsSeen(ps, r, k) == RunsSeen(Init(ps), r, k);
      } else if w.open == [] || w.run != p.run {
        NewRun(w, native, sampled, RunsSeen(Init(ps), r, k), p, k, IsChosen(p, ids));
      } else {
        SameRun(w, native, sampled, RunsSeen(Init(ps), r, k), p, k, IsChosen(p, ids));
      }
    }
  }

  lemma {:induction false} NothingCarried(r: Reading, p: Poll, k: Key)
    requires !Carries(p, k)
    ensures Next(r, p, k) == r && GainValue(r, p, k) == 0.0
  {
  }

  // ---------- The dashboard window ----------

  /** With contiguous runs, whatever samples are missing: the sampled total of a window falls short of the native one by
      exactly the losses of the stretches, and is exact exactly if no stretch loses anything. */
  lemma {:induction false} SampledTotalShortfall(db: seq<Poll>, start: int, end: int, bucket: int, f: Field)
    requires IsDelta(f)
    requires
      var k := CounterOf(f);
      Contiguous(RunsSeen(Between(db, start, end + 1), Read(BaselineOf(db, start, ZERO_TIME), k), k))
    ensures
      var native, sampled := NativePoints(db, start, end, ZERO_TIME), ChartPoints(db, start, end, bucket);
      var base, k := BaselineOf(db, start, ZERO_TIME), CounterOf(f);
      var ss := Stretches(Between(db, start, end + 1), ChartIds(db, start, end, bucket), Read(base, k), k);
      && TallyOf(native, f).sum - TallyOf(sampled, f).sum == TotalLoss(ss)
      && (TallyOf(native, f).sum == TallyOf(sampled, f).sum <==> forall s :: s in ss ==> Lossless(s))
  {
    hide Contiguous, Follows, TotalLoss, Lossless, Walked, Total, TallyOf;
    var k, window := CounterOf(f), Between(db, start, end + 1);
    var base, ids := BaselineOf(db, start, ZERO_TIME), ChartIds(db, start, end, bucket);
    ChooseAll(window, None);
    FoldTotals(window, base, f);
    FoldTotals(Chosen(window, ids), base, f);
    DroppedTotal(window, ids, Read(base, k), k);
    NothingLostIff(Stretches(window, ids, Read(base, k), k));
  }
}
