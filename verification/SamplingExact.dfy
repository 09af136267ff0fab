/** Endpoint sampling is exact after aggregation when runs are contiguous and steady. */
module SamplingExact {
  import opened Common
  import opened Polls
  import opened Series
  import opened Downsample
  import opened Dashboard
  import opened Sampling

  // ---------- The window by position ----------

  /** The polls of a window with the group and the chart slot of each. */
  datatype Window = Window(ps: seq<Poll>, gs: seq<Group>, slots: seq<int>)

  /** Polls of a run carry k, run-less polls do not, no run is left and entered again, and groups follow the clock. */
  ghost predicate CarriedByRuns(w: Window, k: Key) {
    && |w.ps| == |w.gs| == |w.slots|
    && (forall i :: 0 <= i < |w.ps| ==> w.gs[i].run == w.ps[i].run)
    && (forall i :: 0 <= i < |w.ps| ==> (w.ps[i].run.Some? <==> Carries(w.ps[i], k)))
    && (forall i, j :: 0 <= i < j < |w.ps| ==> w.gs[i].bucket <= w.gs[j].bucket)
    && (forall i, j :: 0 <= i < j < |w.ps| && w.gs[i].bucket == w.gs[j].bucket ==> w.slots[i] == w.slots[j])
    && RunsContiguous(w.ps)
  }

  /** The counter moreover never drops inside a run. */
  ghost predicate SteadyRuns(w: Window, k: Key) {
    CarriedByRuns(w, k) && NeverDrops(w.ps, k)
  }

  ghost predicate RunsContiguous(ps: seq<Poll>) {
    forall i, j, l :: 0 <= i < j < l < |ps| && ps[i].run.Some? && ps[i].run == ps[l].run && ps[j].run.Some? ==>
                        ps[j].run == ps[i].run
  }

  ghost predicate NeverDrops(ps: seq<Poll>, k: Key) {
    forall i, j :: 0 <= i < j < |ps| && ps[i].run.Some? && ps[i].run == ps[j].run
                   && Carries(ps[i], k) && Carries(ps[j], k) ==>
                     ValueOf(ps[i], k) <= ValueOf(ps[j], k)
  }

  predicate Picks(picked: Option<set<int>>, i: int) {
    picked.None? || i in picked.value
  }

  /** Readings and tallies of one slot over the first n polls; `picked` restricts them to the selected positions. */
  ghost function ReadingAt(w: Window, picked: Option<set<int>>, r: Reading, k: Key, n: nat): Reading
    requires n <= |w.ps|
  {
    if n == 0 then r
    else if Picks(picked, n - 1) then Next(ReadingAt(w, picked, r, k, n - 1), w.ps[n - 1], k)
    else ReadingAt(w, picked, r, k, n - 1)
  }

  ghost function SlotTally(w: Window, picked: Option<set<int>>, r: Reading, k: Key, slot: int, n: nat): Tally
    requires n <= |w.ps| == |w.slots|
  {
    if n == 0 then NO_TALLY
    else if Picks(picked, n - 1) && w.slots[n - 1] == slot then
      AddSum(SlotTally(w, picked, r, k, slot, n - 1), Gain(ReadingAt(w, picked, r, k, n - 1), w.ps[n - 1], k))
    else SlotTally(w, picked, r, k, slot, n - 1)
  }

  /** The last position before n whose poll belongs to a run, or -1. */
  function LastRun(ps: seq<Poll>, n: nat): (q: int)
    requires n <= |ps|
    ensures -1 <= q < n && (q >= 0 ==> ps[q].run.Some?)
    ensures forall j :: q < j < n ==> ps[j].run.None?
  {
    if n == 0 then -1 else if ps[n - 1].run.Some? then n - 1 else LastRun(ps, n - 1)
  }

  /** While the last run poll is not selected the two folds differ by what it gained in its own slot; otherwise they
      agree. */
  ghost predicate Aligned(w: Window, k: Key, q: int, native: Reading, sampled: Reading, tn: Tally, ts: Tally,
                          r: Reading, slot: int)
    requires -1 <= q < |w.ps| == |w.slots|
  {
    if q < 0 then native == sampled == r && tn == ts
    else
      && Carries(w.ps[q], k) && native == Some(Entry(w.ps[q], k))
      && sampled.Some? && sampled.value.run == w.ps[q].run && sampled.value.value <= native.value.value
      && (q in Ends(w.gs) ==> sampled == native)
      && tn.sum - ts.sum == (if slot == w.slots[q] then native.value.value - sampled.value.value else 0.0)
      && (tn.n > 0 <==> ts.n > 0 || (q !in Ends(w.gs) && slot == w.slots[q]))
  }

  /** A position that is not selected has its group on both sides. */
  lemma {:induction false} NotSelected(w: Window, q: nat)
    requires q < |w.gs| && q !in Ends(w.gs)
    ensures exists i, j :: 0 <= i < q < j < |w.gs| && w.gs[i] == w.gs[q] == w.gs[j]
  {
    assert !IsFirst(w.gs, q) && !IsLast(w.gs, q);
    var i :| 0 <= i < q && w.gs[i] == w.gs[q];
    var j :| q < j < |w.gs| && w.gs[j] == w.gs[q];
    assert w.gs[i] == w.gs[q] == w.gs[j];
  }

  /** Two run polls inside one stretch of a group lie in that group. */
  lemma {:induction false} InsideOneGroup(w: Window, k: Key, i: nat, q: nat, n: nat, j: nat)
    requires CarriedByRuns(w, k) && i <= q < n <= j < |w.ps| && w.gs[i] == w.gs[j]
    requires w.ps[i].run.Some? && w.ps[q].run.Some? && w.ps[n].run.Some?
    ensures w.ps[q].run == w.ps[n].run && w.slots[q] == w.slots[n]
  {
    hide CarriedByRuns;
    RunAt(w, k, i);
    RunAt(w, k, j);
    NoReturn(w, k, i, q, j);
    NoReturn(w, k, i, n, j);
    BucketsGrow(w, k, i, q);
    BucketsGrow(w, k, q, n);
    BucketsGrow(w, k, n, j);
  }

  lemma {:induction false} RunAt(w: Window, k: Key, i: nat)
    requires CarriedByRuns(w, k) && i < |w.ps|
    ensures w.gs[i].run == w.ps[i].run
  {
  }

  lemma {:induction false} NoReturn(w: Window, k: Key, i: nat, q: nat, j: nat)
    requires CarriedByRuns(w, k) && i <= q <= j < |w.ps|
    requires w.ps[i].run.Some? && w.ps[i].run == w.ps[j].run && w.ps[q].run.Some?
    ensures w.ps[q].run == w.ps[i].run
  {
  }

  lemma {:induction false} BucketsGrow(w: Window, k: Key, i: nat, j: nat)
    requires CarriedByRuns(w, k) && i <= j < |w.ps|
    ensures w.gs[i].bucket <= w.gs[j].bucket
    ensures w.gs[i].bucket == w.gs[j].bucket ==> w.slots[i] == w.slots[j]
  {
  }

  /** If either neighbour in a chain of run polls is not selected, both lie in one group. */
  lemma {:induction false} ChainInOneGroup(w: Window, k: Key, q: nat, n: nat)
    requires CarriedByRuns(w, k) && q < n < |w.ps|
    requires w.ps[q].run.Some? && w.ps[n].run.Some? && forall j :: q < j < n ==> w.ps[j].run.None?
    requires q !in Ends(w.gs) || n !in Ends(w.gs)
    ensures w.ps[q].run == w.ps[n].run && w.slots[q] == w.slots[n]
  {
    hide CarriedByRuns, Ends;
    var x := if q !in Ends(w.gs) then q else n;
    SizesAgree(w, k);
    NotSelected(w, x);
    var i, j :| 0 <= i < x < j < |w.gs| && w.gs[i] == w.gs[x] == w.gs[j];
    RunAt(w, k, i);
    RunAt(w, k, x);
    RunAt(w, k, j);
    InsideOneGroup(w, k, i, q, n, j);
  }

  lemma {:induction false} SizesAgree(w: Window, k: Key)
    requires CarriedByRuns(w, k)
    ensures |w.ps| == |w.gs| == |w.slots|
  {
  }

  lemma {:induction false} AlignedStep(w: Window, k: Key, q: int, n: nat, native: Reading, sampled: Reading,
                                       tn: Tally, ts: Tally, r: Reading, slot: int)
    requires SteadyRuns(w, k) && -1 <= q < n < |w.ps| && w.ps[n].run.Some?
    requires q >= 0 ==> w.ps[q].run.Some?
    requires forall j :: q < j < n ==> w.ps[j].run.None?
    requires Aligned(w, k, q, native, sampled, tn, ts, r, slot)
    ensures
      var p, here := w.ps[n], w.slots[n] == slot;
      Aligned(w, k, n, Next(native, p, k), if n in Ends(w.gs) then Next(sampled, p, k) else sampled,
              if here then AddSum(tn, Gain(native, p, k)) else tn,
              if here && n in Ends(w.gs) then AddSum(ts, Gain(sampled, p, k)) else ts, r, slot)
  {
    if q < 0 {
      if n !in Ends(w.gs) {
        NotSelected(w, n);
      }
    } else if q !in Ends(w.gs) || n !in Ends(w.gs) {
      ChainInOneGroup(w, k, q, n);
    }
  }

  lemma {:induction false} RunlessCarryNothing(w: Window, k: Key, i: nat)
    requires CarriedByRuns(w, k) && i < |w.ps|
    ensures w.ps[i].run.None? ==> !Carries(w.ps[i], k)
  {
  }

  lemma {:induction false} AlignedStart(w: Window, k: Key, r: Reading, slot: int)
    requires |w.ps| == |w.slots|
    ensures Aligned(w, k, -1, r, r, NO_TALLY, NO_TALLY, r, slot)
  {
  }

  lemma {:induction false} StaysAligned(w: Window, k: Key, r: Reading, slot: int, n: nat)
    requires SteadyRuns(w, k) && n <= |w.ps| == |w.slots|
    ensures Aligned(w, k, LastRun(w.ps, n),
                    ReadingAt(w, None, r, k, n), ReadingAt(w, Some(Ends(w.gs)), r, k, n),
                    SlotTally(w, None, r, k, slot, n), SlotTally(w, Some(Ends(w.gs)), r, k, slot, n), r, slot)
  {
    hide CarriedByRuns, Aligned;
    if n == 0 {
      AlignedStart(w, k, r, slot);
    } else {
      StaysAligned(w, k, r, slot, n - 1);
      RunlessCarryNothing(w, k, n - 1);
      if w.ps[n - 1].run.Some? {
        AlignedStep(w, k, LastRun(w.ps, n - 1), n - 1,
                    ReadingAt(w, None, r, k, n - 1), ReadingAt(w, Some(Ends(w.gs)), r, k, n - 1),
                    SlotTally(w, None, r, k, slot, n - 1), SlotTally(w, Some(Ends(w.gs)), r, k, slot, n - 1),
                    r, slot);
      }
    }
  }

  /** Over the whole window every slot has the same total and the same presence in both folds. */
  lemma {:induction false} SlotTalliesAgree(w: Window, k: Key, r: Reading, slot: int)
    requires SteadyRuns(w, k)
    ensures
      var n := |w.ps|;
      SumResult(SlotTally(w, None, r, k, slot, n)) == SumResult(SlotTally(w, Some(Ends(w.gs)), r, k, slot, n))
  {
    var n := |w.ps|;
    var q := LastRun(w.ps, n);
    StaysAligned(w, k, r, slot, n);
    if q >= 0 {
      assert IsLast(w.gs, q) by {
        forall j | q < j < |w.gs| ensures w.gs[j] != w.gs[q] {
          assert w.gs[j].run == w.ps[j].run && w.gs[q].run == w.ps[q].run;
        }
      }
      assert q in Ends(w.gs);
    }
    TallyIsEmpty(w, None, r, k, slot, n);
    TallyIsEmpty(w, Some(Ends(w.gs)), r, k, slot, n);
  }

  lemma {:induction false} TallyIsEmpty(w: Window, picked: Option<set<int>>, r: Reading, k: Key, slot: int, n: nat)
    requires n <= |w.ps| == |w.slots|
    ensures SlotTally(w, picked, r, k, slot, n).n == 0 ==> SlotTally(w, picked, r, k, slot, n).sum == 0.0
  {
    if n > 0 {
      TallyIsEmpty(w, picked, r, k, slot, n - 1);
    }
  }
}
