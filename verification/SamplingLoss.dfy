/** What endpoint sampling loses when a counter is reset inside a run: in each bucket and run the smaller of what the
    counter rose and what it fell, and nothing else. */
module SamplingLoss {
  import opened Common
  import opened Polls
  import opened Series
  import opened SeriesReads
  import opened Downsample
  import opened DownsampleLaws
  import opened Dashboard
  import opened Sampling
  import opened SamplingExact
  import opened SamplingTheorem
  import SeriesLaws

  // ---------- Rises and falls ----------

  function Positive(x: real): real {
    if x > 0.0 then x else 0.0
  }

  /** How much a list of values rises, and falls, from neighbour to neighbour. */
  function Rises(vs: seq<real>): real {
    if |vs| < 2 then 0.0 else Rises(Init(vs)) + Positive(Last(vs) - Last(Init(vs)))
  }

  function Falls(vs: seq<real>): real {
    if |vs| < 2 then 0.0 else Falls(Init(vs)) + Positive(Last(Init(vs)) - Last(vs))
  }

  /** What the first and the last value alone do not show of the rises. */
  function Loss(vs: seq<real>): real {
    if Rises(vs) < Falls(vs) then Rises(vs) else Falls(vs)
  }

  ghost predicate Monotone(vs: seq<real>) {
    || (forall i :: 0 < i < |vs| ==> vs[i - 1] <= vs[i])
    || (forall i :: 0 < i < |vs| ==> vs[i - 1] >= vs[i])
  }

  /** From the first value to the last it is the rises minus the falls. */
  lemma {:induction false} RisesMinusFalls(vs: seq<real>)
    requires vs != []
    ensures Last(vs) - vs[0] == Rises(vs) - Falls(vs) && Rises(vs) >= 0.0 && Falls(vs) >= 0.0
  {
    if |vs| > 1 {
      RisesMinusFalls(Init(vs));
    }
  }

  lemma {:induction false} NoRises(vs: seq<real>)
    ensures Rises(vs) >= 0.0
    ensures Rises(vs) == 0.0 <==> forall i :: 0 < i < |vs| ==> vs[i - 1] >= vs[i]
  {
    if |vs| > 1 {
      var init := Init(vs);
      NoRises(init);
      assert Last(vs) == vs[|vs| - 1] && Last(init) == vs[|vs| - 2];
      assert forall i :: 0 <= i < |init| ==> init[i] == vs[i];
    }
  }

  lemma {:induction false} NoFalls(vs: seq<real>)
    ensures Falls(vs) >= 0.0
    ensures Falls(vs) == 0.0 <==> forall i :: 0 < i < |vs| ==> vs[i - 1] <= vs[i]
  {
    if |vs| > 1 {
      var init := Init(vs);
      NoFalls(init);
      assert Last(vs) == vs[|vs| - 1] && Last(init) == vs[|vs| - 2];
      assert forall i :: 0 <= i < |init| ==> init[i] == vs[i];
    }
  }

  /** Nothing is lost exactly if the values go one way only. */
  lemma {:induction false} LosslessIffMonotone(vs: seq<real>)
    ensures Loss(vs) >= 0.0 && (Loss(vs) == 0.0 <==> Monotone(vs))
  {
    hide Rises, Falls;
    NoRises(vs);
    NoFalls(vs);
  }

  // ---------- Groups ----------

  /** The values of a counter in one group, among the first n polls. */
  function ValuesIn(w: Window, k: Key, g: Group, n: nat): seq<real>
    requires n <= |w.ps| == |w.gs|
  {
    if n == 0 then []
    else ValuesIn(w, k, g, n - 1)
         + if w.gs[n - 1] == g && Carries(w.ps[n - 1], k) then [ValueOf(w.ps[n - 1], k)] else []
  }

  /** The losses of the groups of a slot that end before n. */
  ghost function SlotLoss(w: Window, k: Key, slot: int, n: nat): real
    requires n <= |w.ps| == |w.gs| == |w.slots|
  {
    if n == 0 then 0.0
    else
      SlotLoss(w, k, slot, n - 1)
      + if w.ps[n - 1].run.Some? && w.slots[n - 1] == slot && IsLast(w.gs, n - 1)
        then Loss(ValuesIn(w, k, w.gs[n - 1], n)) else 0.0
  }

  lemma {:induction false} NoMembers(w: Window, k: Key, g: Group, n: nat)
    requires n <= |w.ps| == |w.gs| && forall j :: 0 <= j < n ==> w.gs[j] != g
    ensures ValuesIn(w, k, g, n) == []
  {
    if n > 0 {
      NoMembers(w, k, g, n - 1);
    }
  }

  /** Polls of one group with a run poll between them put it in the group too. */
  lemma {:induction false} BetweenMembers(w: Window, k: Key, i: nat, q: nat, j: nat)
    requires CarriedByRuns(w, k) && i <= q <= j < |w.ps| && w.gs[i] == w.gs[j]
    requires w.ps[i].run.Some? && w.ps[q].run.Some?
    ensures w.gs[q] == w.gs[i]
  {
    hide CarriedByRuns;
    SizesAgree(w, k);
    RunAt(w, k, i);
    RunAt(w, k, q);
    RunAt(w, k, j);
    NoReturn(w, k, i, q, j);
    BucketsGrow(w, k, i, q);
    BucketsGrow(w, k, q, j);
  }

  /** Neighbours in the chain of run polls either share a group, or one group ends and the next begins. */
  lemma {:induction false} NeighbourGroups(w: Window, k: Key, q: int, n: nat)
    requires CarriedByRuns(w, k) && -1 <= q < n < |w.ps| && w.ps[n].run.Some?
    requires q >= 0 ==> w.ps[q].run.Some?
    requires forall j :: q < j < n ==> w.ps[j].run.None?
    ensures q >= 0 && w.gs[q] == w.gs[n] ==> !IsFirst(w.gs, n) && !IsLast(w.gs, q) && w.slots[q] == w.slots[n]
    ensures q < 0 || w.gs[q] != w.gs[n] ==> IsFirst(w.gs, n)
    ensures q >= 0 && w.gs[q] != w.gs[n] ==> IsLast(w.gs, q)
  {
    hide CarriedByRuns;
    SizesAgree(w, k);
    RunAt(w, k, n);
    if q >= 0 {
      RunAt(w, k, q);
      BucketsGrow(w, k, q, n);
    }
    if q < 0 || w.gs[q] != w.gs[n] {
      forall j | 0 <= j < n ensures w.gs[j] != w.gs[n] {
        RunAt(w, k, j);
        if w.gs[j] == w.gs[n] {
          BetweenMembers(w, k, j, q, n);
        }
      }
    }
    if q >= 0 && w.gs[q] != w.gs[n] {
      forall m | q < m < |w.gs| ensures w.gs[m] != w.gs[q] {
        RunAt(w, k, m);
        if w.gs[m] == w.gs[q] {
          BetweenMembers(w, k, q, n, m);
        }
      }
    }
  }

  // ---------- The two folds ----------

  /** Before a group has ended the native fold is ahead by what the group rose so far; then by its loss. */
  ghost predicate Behind(w: Window, k: Key, q: int, vs: seq<real>, native: Reading, sampled: Reading, gap: real,
                         loss: real, r: Reading, slot: int)
    requires -1 <= q < |w.ps| == |w.gs| == |w.slots|
  {
    if q < 0 then native == sampled == r && gap == loss
    else
      && Carries(w.ps[q], k) && native == Some(Entry(w.ps[q], k)) && vs != [] && Last(vs) == ValueOf(w.ps[q], k)
      && if IsLast(w.gs, q) then sampled == native && gap == loss
         else
           && sampled.Some? && sampled.value.run == w.ps[q].run && sampled.value.value == vs[0]
           && gap == loss + if slot == w.slots[q] then Rises(vs) else 0.0
  }

  function Contribution(here: bool, r: Reading, p: Poll, k: Key): real {
    if here then GainValue(r, p, k) else 0.0
  }

  lemma {:induction false} RisesNext(vs: seq<real>, v: real)
    ensures Rises(vs + [v]) == if vs == [] then 0.0 else Rises(vs) + Positive(v - Last(vs))
    ensures Last(vs + [v]) == v && (vs + [v])[0] == if vs == [] then v else vs[0]
  {
    InitOfAppend(vs, v);
  }

  lemma {:induction false} LossOfOne(v: real)
    ensures Loss([v]) == 0.0 && Rises([v]) == 0.0
  {
  }

  /** A poll that opens a group is kept, so that both folds take the same step. */
  lemma {:induction false} OpensGroup(w: Window, k: Key, q: int, n: nat, vs: seq<real>, native: Reading,
                                      sampled: Reading, gap: real, loss: real, r: Reading, slot: int)
    requires CarriedByRuns(w, k) && -1 <= q < n < |w.ps| && w.ps[n].run.Some?
    requires Behind(w, k, q, vs, native, sampled, gap, loss, r, slot) && (q >= 0 ==> IsLast(w.gs, q))
    ensures Carries(w.ps[n], k)
    ensures
      var p, here := w.ps[n], w.slots[n] == slot;
      Behind(w, k, n, [ValueOf(p, k)], Next(native, p, k), Next(sampled, p, k),
             gap + Contribution(here, native, p, k) - Contribution(here, sampled, p, k),
             loss + (if here && IsLast(w.gs, n) then Loss([ValueOf(p, k)]) else 0.0), r, slot)
  {
    LossOfOne(ValueOf(w.ps[n], k));
  }

  /** A later poll of the group: the native fold rises or not; the sampled one waits for the last poll. */
  lemma {:induction false} StaysInGroup(w: Window, k: Key, q: nat, n: nat, vs: seq<real>, native: Reading,
                                        sampled: Reading, gap: real, loss: real, r: Reading, slot: int)
    requires CarriedByRuns(w, k) && q < n < |w.ps| && w.ps[n].run.Some? && w.gs[q] == w.gs[n]
    requires w.slots[q] == w.slots[n] && !IsLast(w.gs, q)
    requires Behind(w, k, q, vs, native, sampled, gap, loss, r, slot)
    ensures Carries(w.ps[n], k)
    ensures
      var p, here, last := w.ps[n], w.slots[n] == slot, IsLast(w.gs, n);
      var vs' := vs + [ValueOf(p, k)];
      Behind(w, k, n, vs', Next(native, p, k), if last then Next(sampled, p, k) else sampled,
             gap + Contribution(here, native, p, k) - (if last then Contribution(here, sampled, p, k) else 0.0),
             loss + (if here && last then Loss(vs') else 0.0), r, slot)
  {
    var p := w.ps[n];
    var vs' := vs + [ValueOf(p, k)];
    RisesNext(vs, ValueOf(p, k));
    RisesMinusFalls(vs');
    assert w.ps[q].run == p.run;
  }

  ghost predicate BehindAt(w: Window, k: Key, r: Reading, slot: int, n: nat)
    requires n <= |w.ps| == |w.gs| == |w.slots|
  {
    var q := LastRun(w.ps, n);
    var vs := if q < 0 then [] else ValuesIn(w, k, w.gs[q], n);
    Behind(w, k, q, vs, ReadingAt(w, None, r, k, n), ReadingAt(w, Some(Ends(w.gs)), r, k, n),
           SlotTally(w, None, r, k, slot, n).sum - SlotTally(w, Some(Ends(w.gs)), r, k, slot, n).sum,
           SlotLoss(w, k, slot, n), r, slot)
  }

  lemma {:induction false} FoldsNext(w: Window, k: Key, r: Reading, slot: int, n: nat, picked: Option<set<int>>)
    requires n < |w.ps| == |w.slots|
    ensures
      var reading, p, here := ReadingAt(w, picked, r, k, n), w.ps[n], w.slots[n] == slot;
      && ReadingAt(w, picked, r, k, n + 1) == (if Picks(picked, n) then Next(reading, p, k) else reading)
      && SlotTally(w, picked, r, k, slot, n + 1).sum ==
         SlotTally(w, picked, r, k, slot, n).sum + if Picks(picked, n) then Contribution(here, reading, p, k) else 0.0
  {
    hide Gain, Next;
  }

  lemma {:induction false} LossNext(w: Window, k: Key, slot: int, n: nat, g: Group)
    requires n < |w.ps| == |w.gs| == |w.slots|
    ensures SlotLoss(w, k, slot, n + 1) ==
            SlotLoss(w, k, slot, n)
            + if w.ps[n].run.Some? && w.slots[n] == slot && IsLast(w.gs, n) then Loss(ValuesIn(w, k, w.gs[n], n + 1))
                else 0.0
    ensures ValuesIn(w, k, g, n + 1) ==
            if w.gs[n] == g && Carries(w.ps[n], k) then ValuesIn(w, k, g, n) + [ValueOf(w.ps[n], k)]
            else ValuesIn(w, k, g, n)
  {
    hide Loss, IsLast;
    assert ValuesIn(w, k, g, n) + [] == ValuesIn(w, k, g, n);
  }

  lemma {:induction false} RunStepInside(w: Window, k: Key, r: Reading, slot: int, n: nat, q: nat)
    requires CarriedByRuns(w, k) && n < |w.ps| && w.ps[n].run.Some? && BehindAt(w, k, r, slot, n)
    requires q == LastRun(w.ps, n) && w.gs[q] == w.gs[n]
    ensures BehindAt(w, k, r, slot, n + 1)
  {
    hide CarriedByRuns, Behind, Gain, Loss, Ends, IsLast, IsFirst, SlotTally, ReadingAt, SlotLoss, ValuesIn, Next,
        Carries;
    SizesAgree(w, k);
    NeighbourGroups(w, k, q, n);
    EndMeans(w.gs, n);
    CarriedAt(w, k, n);
    FoldsNext(w, k, r, slot, n, None);
    FoldsNext(w, k, r, slot, n, Some(Ends(w.gs)));
    LossNext(w, k, slot, n, w.gs[n]);
    StaysInGroup(w, k, q, n, ValuesIn(w, k, w.gs[q], n),
                 ReadingAt(w, None, r, k, n), ReadingAt(w, Some(Ends(w.gs)), r, k, n),
                 SlotTally(w, None, r, k, slot, n).sum - SlotTally(w, Some(Ends(w.gs)), r, k, slot, n).sum,
                 SlotLoss(w, k, slot, n), r, slot);
  }

  lemma {:induction false} RunStepOpening(w: Window, k: Key, r: Reading, slot: int, n: nat, q: int)
    requires CarriedByRuns(w, k) && n < |w.ps| && w.ps[n].run.Some? && BehindAt(w, k, r, slot, n)
    requires q == LastRun(w.ps, n) && (q >= 0 ==> w.gs[q] != w.gs[n])
    ensures BehindAt(w, k, r, slot, n + 1)
  {
    hide CarriedByRuns, Behind, Gain, Loss, Ends, IsLast, IsFirst, SlotTally, ReadingAt, SlotLoss, ValuesIn, Next,
        Carries;
    SizesAgree(w, k);
    NeighbourGroups(w, k, q, n);
    EndMeans(w.gs, n);
    CarriedAt(w, k, n);
    FoldsNext(w, k, r, slot, n, None);
    FoldsNext(w, k, r, slot, n, Some(Ends(w.gs)));
    LossNext(w, k, slot, n, w.gs[n]);
    OpensGroup(w, k, q, n, if q < 0 then [] else ValuesIn(w, k, w.gs[q], n),
               ReadingAt(w, None, r, k, n), ReadingAt(w, Some(Ends(w.gs)), r, k, n),
               SlotTally(w, None, r, k, slot, n).sum - SlotTally(w, Some(Ends(w.gs)), r, k, slot, n).sum,
               SlotLoss(w, k, slot, n), r, slot);
    FirstHasNoMembers(w, k, n);
    assert [] + [ValueOf(w.ps[n], k)] == [ValueOf(w.ps[n], k)];
  }

  lemma {:induction false} RunStep(w: Window, k: Key, r: Reading, slot: int, n: nat)
    requires CarriedByRuns(w, k) && n < |w.ps| && w.ps[n].run.Some? && BehindAt(w, k, r, slot, n)
    ensures BehindAt(w, k, r, slot, n + 1)
  {
    hide CarriedByRuns, BehindAt;
    SizesAgree(w, k);
    var q := LastRun(w.ps, n);
    if q >= 0 && w.gs[q] == w.gs[n] {
      RunStepInside(w, k, r, slot, n, q);
    } else {
      RunStepOpening(w, k, r, slot, n, q);
    }
  }

  lemma {:induction false} CarriedAt(w: Window, k: Key, n: nat)
    requires CarriedByRuns(w, k) && n < |w.ps|
    ensures Carries(w.ps[n], k) <==> w.ps[n].run.Some?
  {
  }

  lemma {:induction false} EndMeans(gs: seq<Group>, n: nat)
    requires n < |gs|
    ensures n in Ends(gs) <==> IsFirst(gs, n) || IsLast(gs, n)
  {
  }

  lemma {:induction false} FirstHasNoMembers(w: Window, k: Key, n: nat)
    requires n < |w.ps| == |w.gs| && IsFirst(w.gs, n)
    ensures ValuesIn(w, k, w.gs[n], n) == []
  {
    NoMembers(w, k, w.gs[n], n);
  }

  lemma {:induction false} RunlessStep(w: Window, k: Key, r: Reading, slot: int, n: nat)
    requires CarriedByRuns(w, k) && n < |w.ps| && w.ps[n].run.None? && BehindAt(w, k, r, slot, n)
    ensures BehindAt(w, k, r, slot, n + 1)
  {
    hide CarriedByRuns, Behind, IsLast, Ends, SlotTally, ReadingAt, SlotLoss, ValuesIn, Carries;
    SizesAgree(w, k);
    CarriedAt(w, k, n);
    RunAt(w, k, n);
    FoldsNext(w, k, r, slot, n, None);
    FoldsNext(w, k, r, slot, n, Some(Ends(w.gs)));
    var q := LastRun(w.ps, n);
    LossNext(w, k, slot, n, w.gs[if q < 0 then n else q]);
    if q >= 0 {
      RunAt(w, k, q);
    }
  }

  lemma {:induction false} StartsBehind(w: Window, k: Key, r: Reading, slot: int)
    requires |w.ps| == |w.gs| == |w.slots|
    ensures BehindAt(w, k, r, slot, 0)
  {
  }

  lemma {:induction false} StaysBehind(w: Window, k: Key, r: Reading, slot: int, n: nat)
    requires CarriedByRuns(w, k) && n <= |w.ps| == |w.gs| == |w.slots|
    ensures BehindAt(w, k, r, slot, n)
  {
    hide CarriedByRuns, BehindAt;
    if n == 0 {
      StartsBehind(w, k, r, slot);
    } else {
      StaysBehind(w, k, r, slot, n - 1);
      if w.ps[n - 1].run.Some? {
        RunStep(w, k, r, slot, n - 1);
      } else {
        RunlessStep(w, k, r, slot, n - 1);
      }
    }
  }

  /** In every slot the native total exceeds the sampled one by exactly the losses of the slot's groups. */
  lemma {:induction false} SlotTalliesDiffer(w: Window, k: Key, r: Reading, slot: int)
    requires CarriedByRuns(w, k)
    ensures
      var n := |w.ps|;
      SlotTally(w, None, r, k, slot, n).sum - SlotTally(w, Some(Ends(w.gs)), r, k, slot, n).sum ==
          SlotLoss(w, k, slot, n)
  {
    hide SlotLoss, SlotTally, ReadingAt, Ends;
    var n := |w.ps|;
    var q := LastRun(w.ps, n);
    StaysBehind(w, k, r, slot, n);
    if q >= 0 {
      assert IsLast(w.gs, q) by {
        forall j | q < j < |w.gs| ensures w.gs[j] != w.gs[q] {
          assert w.gs[j].run == w.ps[j].run && w.gs[q].run == w.ps[q].run;
        }
      }
    }
  }

  // ---------- When nothing is lost ----------

  /** In every group of the slot the counter goes one way only. */
  ghost predicate MonotoneInSlot(w: Window, k: Key, slot: int)
    requires |w.ps| == |w.gs| == |w.slots|
  {
    forall i :: 0 <= i < |w.ps| && w.ps[i].run.Some? && w.slots[i] == slot ==>
                  Monotone(ValuesIn(w, k, w.gs[i], |w.ps|))
  }

  lemma {:induction false} EndedGroup(w: Window, k: Key, n: nat)
    requires n < |w.ps| == |w.gs| && IsLast(w.gs, n)
    ensures ValuesIn(w, k, w.gs[n], |w.ps|) == ValuesIn(w, k, w.gs[n], n + 1)
  {
    NoMoreMembers(w, k, w.gs[n], n + 1, |w.ps|);
  }

  lemma {:induction false} NoMoreMembers(w: Window, k: Key, g: Group, m: nat, n: nat)
    requires m <= n <= |w.ps| == |w.gs| && forall j :: m <= j < n ==> w.gs[j] != g
    ensures ValuesIn(w, k, g, n) == ValuesIn(w, k, g, m)
  {
    if m < n {
      NoMoreMembers(w, k, g, m, n - 1);
      assert ValuesIn(w, k, g, n - 1) + [] == ValuesIn(w, k, g, n - 1);
    }
  }

  lemma {:induction false} SlotLossGrows(w: Window, k: Key, slot: int, m: nat, n: nat)
    requires m <= n <= |w.ps| == |w.gs| == |w.slots|
    ensures 0.0 <= SlotLoss(w, k, slot, m) <= SlotLoss(w, k, slot, n)
    decreases n
  {
    hide Loss, IsLast, ValuesIn, Monotone;
    if n > 0 {
      LosslessIffMonotone(ValuesIn(w, k, w.gs[n - 1], n));
      SlotLossGrows(w, k, slot, if m < n then m else n - 1, n - 1);
    }
  }

  lemma {:induction false} MonotoneLosesNothing(w: Window, k: Key, slot: int, n: nat)
    requires n <= |w.ps| == |w.gs| == |w.slots| && MonotoneInSlot(w, k, slot)
    ensures SlotLoss(w, k, slot, n) == 0.0
  {
    hide Loss, IsLast, Monotone;
    if n > 0 {
      MonotoneLosesNothing(w, k, slot, n - 1);
      if IsLast(w.gs, n - 1) {
        EndedGroup(w, k, n - 1);
        LosslessIffMonotone(ValuesIn(w, k, w.gs[n - 1], n));
      }
    }
  }

  lemma {:induction false} LosingNothingIsMonotone(w: Window, k: Key, slot: int, i: nat)
    requires CarriedByRuns(w, k) && i < |w.ps| && w.ps[i].run.Some? && w.slots[i] == slot
    requires SlotLoss(w, k, slot, |w.ps|) == 0.0
    ensures Monotone(ValuesIn(w, k, w.gs[i], |w.ps|))
  {
    hide Loss, IsLast, Monotone, CarriedByRuns;
    SizesAgree(w, k);
    var j := LastOfGroup(w.gs, i);
    RunAt(w, k, i);
    RunAt(w, k, j);
    BucketsGrow(w, k, i, j);
    EndedGroup(w, k, j);
    LossNext(w, k, slot, j, w.gs[j]);
    SlotLossGrows(w, k, slot, j + 1, |w.ps|);
    SlotLossGrows(w, k, slot, 0, j);
    LosslessIffMonotone(ValuesIn(w, k, w.gs[j], j + 1));
  }

  /** Nothing is lost in a slot exactly if the counter is monotone inside each of its groups. */
  lemma {:induction false} SlotLosslessIff(w: Window, k: Key, slot: int)
    requires CarriedByRuns(w, k)
    ensures |w.ps| == |w.gs| == |w.slots|
    ensures SlotLoss(w, k, slot, |w.ps|) == 0.0 <==> MonotoneInSlot(w, k, slot)
  {
    hide Monotone, CarriedByRuns;
    SizesAgree(w, k);
    if MonotoneInSlot(w, k, slot) {
      MonotoneLosesNothing(w, k, slot, |w.ps|);
    }
    if SlotLoss(w, k, slot, |w.ps|) == 0.0 {
      forall i | 0 <= i < |w.ps| && w.ps[i].run.Some? && w.slots[i] == slot
        ensures Monotone(ValuesIn(w, k, w.gs[i], |w.ps|))
      {
        LosingNothingIsMonotone(w, k, slot, i);
      }
    }
  }

  // ---------- The charts ----------

  /** For contiguous runs that carry the counter: in every chart slot the sampled total falls short of the native one by
      exactly the sum, over the slot's buckets and runs, of the smaller of what the counter rose and fell there. */
  lemma {:induction false} SlotShortfall(ps: seq<Poll>, base: Baseline, d: int, start: int, f: Field, slot: int)
    requires Ordered(ps) && IsDelta(f) && RunsCarry(ps, CounterOf(f))
    ensures
      var ids, w := EndpointIds(ps, d), WindowOf(ps, d, start);
      TallyOf(InSlot(PointsOf(ps, None, base), PointSlots(ps, None, base, d, start), slot), f).sum
      - TallyOf(InSlot(PointsOf(ps, ids, base), PointSlots(ps, ids, base, d, start), slot), f).sum ==
      SlotLoss(w, CounterOf(f), slot, |ps|)
  {
    hide CarriedByRuns, RunsCarry, InSlot, TallyOf, PointsOf, PointSlots, SlotTally, SlotLoss, Ends;
    var w, k, n := WindowOf(ps, d, start), CounterOf(f), |ps|;
    WindowCarriedByRuns(ps, d, start, k);
    SlotTalliesDiffer(w, k, Read(base, k), slot);
    EndsPickTheirIds(ps, w.gs);
    WholePrefix(ps);
    PointTallies(ps, None, None, base, d, start, f, slot, n);
    PointTallies(ps, EndpointIds(ps, d), Some(Ends(w.gs)), base, d, start, f, slot, n);
  }

  /** So a slot of the sampled chart is exact exactly if the counter is monotone inside each bucket and run of it. */
  lemma {:induction false} SlotIsExactIff(ps: seq<Poll>, base: Baseline, d: int, start: int, f: Field, slot: int)
    requires Ordered(ps) && IsDelta(f) && RunsCarry(ps, CounterOf(f))
    ensures
      var ids := EndpointIds(ps, d);
      TallyOf(InSlot(PointsOf(ps, None, base), PointSlots(ps, None, base, d, start), slot), f).sum ==
      TallyOf(InSlot(PointsOf(ps, ids, base), PointSlots(ps, ids, base, d, start), slot), f).sum
      <==> MonotoneInSlot(WindowOf(ps, d, start), CounterOf(f), slot)
  {
    hide CarriedByRuns, RunsCarry, InSlot, TallyOf, PointsOf, PointSlots, SlotLoss, MonotoneInSlot;
    WindowCarriedByRuns(ps, d, start, CounterOf(f));
    SlotShortfall(ps, base, d, start, f, slot);
    SlotLosslessIff(WindowOf(ps, d, start), CounterOf(f), slot);
  }

  // ---------- The whole window ----------

  /** The window taken as one slot. */
  function Unslotted(ps: seq<Poll>, d: int): Window {
    Window(ps, GroupsOf(ps, d), seq(|ps|, i => 0))
  }

  /** The losses of all buckets and runs of a window. */
  ghost function WindowLoss(ps: seq<Poll>, d: int, k: Key): real {
    SlotLoss(Unslotted(ps, d), k, 0, |ps|)
  }

  ghost predicate MonotoneInGroups(ps: seq<Poll>, d: int, k: Key) {
    MonotoneInSlot(Unslotted(ps, d), k, 0)
  }

  lemma {:induction false} UnslottedIsCarried(ps: seq<Poll>, d: int, k: Key)
    requires Ordered(ps) && RunsCarry(ps, k)
    ensures CarriedByRuns(Unslotted(ps, d), k)
  {
    hide SlotOf, ClockBucketStart;
    var w := Unslotted(ps, d);
    WindowCarriedByRuns(ps, d, 0, k);
    assert w.gs == WindowOf(ps, d, 0).gs;
  }

  lemma {:induction false} TotalIsTally(ps: seq<Poll>, d: int, ids: Option<set<int>>, picked: Option<set<int>>,
                                        r: Reading, k: Key, n: nat)
    requires n <= |ps| && SamePicks(ps, ids, picked)
    ensures After(Chosen(ps[..n], ids), r, k) == ReadingAt(Unslotted(ps, d), picked, r, k, n)
    ensures Total(Chosen(ps[..n], ids), r, k) == SlotTally(Unslotted(ps, d), picked, r, k, 0, n).sum
  {
    hide GainValue, Next, Ends, SlotTally, ReadingAt, Total, After, ClockBucketStart;
    var w := Unslotted(ps, d);
    if n == 0 {
      NothingRead(w, picked, r, k);
    } else {
      TotalIsTally(ps, d, ids, picked, r, k, n - 1);
      InitOfPrefix(ps, n - 1);
      FoldsNext(w, k, r, 0, n - 1, picked);
      TotalNext(Chosen(ps[..n - 1], ids), ps[n - 1], r, k);
    }
  }

  lemma {:induction false} NothingRead(w: Window, picked: Option<set<int>>, r: Reading, k: Key)
    requires |w.ps| == |w.slots|
    ensures ReadingAt(w, picked, r, k, 0) == r == After([], r, k)
    ensures SlotTally(w, picked, r, k, 0, 0).sum == 0.0 == Total([], r, k)
  {
  }

  /** For contiguous runs that carry the counter, the sampled total over a window falls short of the native one by the
      losses of its buckets and runs, and by nothing once the cap makes the read native. */
  lemma {:induction false} WindowShortfall(db: seq<Poll>, start: int, end: int, bucket: int, f: Field)
    requires Ordered(db) && IsDelta(f) && RunsCarry(Between(db, start, end + 1), CounterOf(f))
    ensures TallyOf(NativePoints(db, start, end, ZERO_TIME), f).sum -
            TallyOf(ChartPoints(db, start, end, bucket), f).sum ==
            if ChartIds(db, start, end, bucket).None? then 0.0
            else WindowLoss(Between(db, start, end + 1), bucket, CounterOf(f))
  {
    hide Total, SlotTally, SlotLoss, Ends, RunsCarry, CarriedByRuns, After, ReadingAt, TallyOf, Chosen;
    var ps, k, base := Between(db, start, end + 1), CounterOf(f), BaselineOf(db, start, ZERO_TIME);
    var ids, n := ChartIds(db, start, end, bucket), |ps|;
    BetweenOrdered(db, start, end + 1);
    ChooseAll(ps, None);
    WholePrefix(ps);
    FoldTotals(ps, base, f);
    FoldTotals(Chosen(ps, ids), base, f);
    if ids.Some? {
      var w := Unslotted(ps, bucket);
      UnslottedIsCarried(ps, bucket, k);
      SlotTalliesDiffer(w, k, Read(base, k), 0);
      EndsPickTheirIds(ps, w.gs);
      TotalIsTally(ps, bucket, None, None, Read(base, k), k, n);
      TotalIsTally(ps, bucket, ids, Some(Ends(w.gs)), Read(base, k), k, n);
    }
  }

  /** The sampled total is exact exactly if the read is native or the counter is monotone inside each bucket and run;
      resets between buckets lose nothing. */
  lemma {:induction false} SampledTotalIsExactIff(db: seq<Poll>, start: int, end: int, bucket: int, f: Field)
    requires Ordered(db) && IsDelta(f) && RunsCarry(Between(db, start, end + 1), CounterOf(f))
    ensures
      var native, sampled := NativePoints(db, start, end, ZERO_TIME), ChartPoints(db, start, end, bucket);
      TallyOf(native, f).sum == TallyOf(sampled, f).sum <==>
        ChartIds(db, start, end, bucket).None?
        || MonotoneInGroups(Between(db, start, end + 1), bucket, CounterOf(f))
  {
    hide RunsCarry, CarriedByRuns, TallyOf, SlotLoss, MonotoneInSlot;
    var ps, k := Between(db, start, end + 1), CounterOf(f);
    BetweenOrdered(db, start, end + 1);
    WindowShortfall(db, start, end, bucket, f);
    UnslottedIsCarried(ps, bucket, k);
    SlotLosslessIff(Unslotted(ps, bucket), k, 0);
  }

  // ---------- One bucket and run, and an input that loses ----------

  function Values(ps: seq<Poll>, k: Key): (vs: seq<real>)
    requires forall p :: p in ps ==> Carries(p, k)
    ensures |vs| == |ps| && forall i :: 0 <= i < |vs| ==> vs[i] == ValueOf(ps[i], k)
  {
    seq(|ps|, i requires 0 <= i < |ps| => assert ps[i] in ps; ValueOf(ps[i], k))
  }

  lemma {:induction false} OneGroupValues(w: Window, k: Key, g: Group, n: nat)
    requires n <= |w.ps| == |w.gs| && forall i :: 0 <= i < n ==> w.gs[i] == g && Carries(w.ps[i], k)
    ensures |ValuesIn(w, k, g, n)| == n
    ensures forall i :: 0 <= i < n ==> ValuesIn(w, k, g, n)[i] == ValueOf(w.ps[i], k)
  {
    if n > 0 {
      OneGroupValues(w, k, g, n - 1);
    }
  }

  lemma {:induction false} OneGroupEnds(w: Window, k: Key, slot: int, n: nat)
    requires n < |w.ps| == |w.gs| == |w.slots| && forall i, j :: 0 <= i < j < |w.gs| ==> w.gs[i] == w.gs[j]
    ensures SlotLoss(w, k, slot, n) == 0.0
  {
    if n > 0 {
      OneGroupEnds(w, k, slot, n - 1);
      assert w.gs[n] == w.gs[n - 1];
    }
  }

  /** Polls of one run in one bucket lose the smaller of the rises and the falls between neighbours. */
  lemma {:induction false} OneGroupLoses(ps: seq<Poll>, d: int, k: Key)
    requires ps != [] && (forall p :: p in ps ==> Carries(p, k)) && ps[0].run.Some?
    requires forall p :: p in ps ==> p.run == ps[0].run && ClockBucketStart(p.ts, d) == ClockBucketStart(ps[0].ts, d)
    ensures WindowLoss(ps, d, k) == Loss(Values(ps, k))
  {
    hide ClockBucketStart, Loss, ValuesIn, SlotLoss, Carries;
    var w := Unslotted(ps, d);
    forall i | 0 <= i < |ps| ensures w.gs[i] == w.gs[0] && Carries(ps[i], k) && ps[i].run.Some? {
      assert ps[i] in ps && ps[0] in ps;
    }
    OneGroupLoss(w, k, Values(ps, k));
  }

  lemma {:induction false} OneGroupLoss(w: Window, k: Key, vs: seq<real>)
    requires 0 < |w.ps| == |w.gs| == |w.slots| == |vs| && w.slots[|w.ps| - 1] == 0
    requires forall i :: 0 <= i < |w.ps| ==>
                           && w.gs[i] == w.gs[0] && w.ps[i].run.Some?
                           && Carries(w.ps[i], k) && vs[i] == ValueOf(w.ps[i], k)
    ensures SlotLoss(w, k, 0, |w.ps|) == Loss(vs)
  {
    hide Loss, ValuesIn, Carries;
    var n := |w.ps|;
    OneGroupEnds(w, k, 0, n - 1);
    OneGroupValues(w, k, w.gs[0], n);
    assert ValuesIn(w, k, w.gs[0], n) == vs;
    assert IsLast(w.gs, n - 1);
  }

  /** The shortfall of a window that lies in one bucket and run. */
  lemma {:induction false} OneGroupShortfall(db: seq<Poll>, ps: seq<Poll>, start: int, end: int, bucket: int, f: Field)
    requires Ordered(db) && IsDelta(f) && Sampled(bucket) && ps == Between(db, start, end + 1)
    requires 0 < |ps| <= DASHBOARD_POLL_LIMIT && ps[0].run.Some?
    requires forall p :: p in ps ==> Carries(p, CounterOf(f))
    requires forall p :: p in ps ==>
               p.run == ps[0].run && ClockBucketStart(p.ts, bucket) == ClockBucketStart(ps[0].ts, bucket)
    ensures TallyOf(NativePoints(db, start, end, ZERO_TIME), f).sum -
            TallyOf(ChartPoints(db, start, end, bucket), f).sum ==
            Loss(Values(ps, CounterOf(f)))
  {
    hide TallyOf, NativePoints, ChartPoints, Loss, ClockBucketStart, WindowLoss, Values;
    forall i | 0 <= i < |ps| ensures ps[i].run == ps[0].run && Carries(ps[i], CounterOf(f)) {
      assert ps[i] in ps;
    }
    WindowShortfall(db, start, end, bucket, f);
    EndsFew(GroupsOf(ps, bucket));
    OneGroupLoses(ps, bucket, CounterOf(f));
  }

  lemma {:induction false} EndsFew(gs: seq<Group>)
    ensures |Ends(gs)| <= |gs|
  {
    SubsetSize(Ends(gs), Positions(|gs|));
  }

  function Positions(n: nat): (r: set<int>)
    ensures |r| == n && forall i :: i in r <==> 0 <= i < n
  {
    if n == 0 then {} else Positions(n - 1) + {n - 1}
  }

  lemma {:induction false} SubsetSize<T>(a: set<T>, b: set<T>)
    requires a <= b
    ensures |a| <= |b|
  {
    assert b == a + (b - a);
  }

  function Requesting(id: int, ts: nat, total: real): Poll {
    Poll(id, ts, Some(1), map[HttpRequestsTotal := Polls.Sample(Counter, total, "requests")])
  }

  /** Requests 100, 120, then a reset to 5, then 150, all in the first half hour and in one run. */
  function ResetHistory(): seq<Poll> {
    [Requesting(1, 0, 100.0), Requesting(2, 1, 120.0), Requesting(3, 2, 5.0), Requesting(4, 3, 150.0)]
  }

  lemma {:induction false} ResetPolls(p: Poll)
    requires p in ResetHistory()
    ensures p.run == Some(1) && 0 <= p.ts < 4 && Carries(p, HttpRequestsTotal)
  {
  }

  lemma {:induction false} ResetOrdered()
    ensures Ordered(ResetHistory()) && |ResetHistory()| == 4 && ResetHistory()[0] in ResetHistory()
  {
  }

  lemma {:induction false} ResetLoss()
    ensures Loss([100.0, 120.0, 5.0, 150.0]) == 115.0
  {
    var a, b, c := [100.0], [100.0, 120.0], [100.0, 120.0, 5.0];
    var d := [100.0, 120.0, 5.0, 150.0];
    assert Init(d) == c && Init(c) == b && Init(b) == a;
    assert Rises(b) == 20.0 && Falls(b) == 0.0;
    assert Rises(c) == 20.0 && Falls(c) == 115.0;
    assert Rises(d) == 165.0 && Falls(d) == 115.0;
  }

  /** On this history the sampled chart shows 115 requests fewer than the native one. */
  lemma {:induction false} ResetIsLost()
    ensures TallyOf(NativePoints(ResetHistory(), 0, 10, ZERO_TIME), Requests).sum
            - TallyOf(ChartPoints(ResetHistory(), 0, 10, 30 * MINUTE), Requests).sum == 115.0
  {
    hide TallyOf, NativePoints, ChartPoints, Loss, ResetHistory, Carries, ClockBucketStart, Ordered;
    var ps, k := ResetHistory(), HttpRequestsTotal;
    ResetOrdered();
    forall p | p in ps
      ensures p.run == Some(1) && 0 <= p.ts < 11 && Carries(p, k) && ClockBucketStart(p.ts, 30 * MINUTE) == 0
    {
      ResetPolls(p);
      EarlyBucket(p.ts);
    }
    SeriesLaws.BetweenAll(ps, 0, 11);
    OneGroupShortfall(ps, ps, 0, 10, 30 * MINUTE, Requests);
    ResetValues();
    ResetLoss();
  }

  lemma {:induction false} EarlyBucket(ts: int)
    requires 0 <= ts < 4
    ensures ClockBucketStart(ts, 30 * MINUTE) == 0
  {
  }

  lemma {:induction false} ResetValues()
    ensures forall p :: p in ResetHistory() ==> Carries(p, HttpRequestsTotal)
    ensures Values(ResetHistory(), HttpRequestsTotal) == [100.0, 120.0, 5.0, 150.0]
  {
  }
}
