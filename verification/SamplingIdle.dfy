/** Request time gained while no request was counted, and how much of it endpoint sampling counts in. */
module SamplingIdle {
  import opened Common
  import opened Polls
  import opened Series
  import opened Dashboard
  import opened Sampling
  import opened SamplingExact
  import SamplingLoss
  import SamplingTheorem

  const R := HttpRequestsTotal
  const T := HttpRequestTimeTotal

  /** Both counters of a poll. */
  datatype Traffic = Traffic(requests: real, time: real)

  function TrafficOf(p: Poll): Traffic {
    Traffic(if Carries(p, R) then ValueOf(p, R) else 0.0, if Carries(p, T) then ValueOf(p, T) else 0.0)
  }

  // ---------- One group ----------

  /** Time gained from neighbour to neighbour while the requests stood still. */
  function IdleTime(vs: seq<Traffic>): real {
    if |vs| < 2 then 0.0
    else
      var before, now := Last(Init(vs)), Last(vs);
      IdleTime(Init(vs)) + if now.requests == before.requests then now.time - before.time else 0.0
  }

  /** What of it the first and the last value count in with the requests between them. */
  function HiddenTime(vs: seq<Traffic>): real {
    if vs != [] && vs[0].requests != Last(vs).requests then IdleTime(vs) else 0.0
  }

  ghost predicate Rising(vs: seq<Traffic>) {
    forall i :: 0 < i < |vs| ==> vs[i - 1].requests <= vs[i].requests && vs[i - 1].time <= vs[i].time
  }

  /** A group hides nothing if it counts no request at all or gains no time while idle. */
  ghost predicate Plain(vs: seq<Traffic>) {
    || vs == [] || vs[0].requests == Last(vs).requests
    || forall i :: 0 < i < |vs| && vs[i - 1].requests == vs[i].requests ==> vs[i - 1].time == vs[i].time
  }

  lemma {:induction false} IdleNext(vs: seq<Traffic>, v: Traffic)
    ensures IdleTime(vs + [v]) ==
            if vs == [] then 0.0
            else IdleTime(vs) + if v.requests == Last(vs).requests then v.time - Last(vs).time else 0.0
    ensures Last(vs + [v]) == v && (vs + [v])[0] == if vs == [] then v else vs[0]
  {
    InitOfAppend(vs, v);
  }

  lemma {:induction false} IdleIsNotNegative(vs: seq<Traffic>)
    requires Rising(vs)
    ensures IdleTime(vs) >= 0.0
    ensures IdleTime(vs) == 0.0 <==>
              forall i :: 0 < i < |vs| && vs[i - 1].requests == vs[i].requests ==> vs[i - 1].time == vs[i].time
  {
    if |vs| > 1 {
      var init := Init(vs);
      assert forall i :: 0 <= i < |init| ==> init[i] == vs[i];
      IdleIsNotNegative(init);
      assert Last(vs) == vs[|vs| - 1] && Last(init) == vs[|vs| - 2];
    }
  }

  lemma {:induction false} HiddenIffNotPlain(vs: seq<Traffic>)
    requires Rising(vs)
    ensures HiddenTime(vs) >= 0.0 && (HiddenTime(vs) == 0.0 <==> Plain(vs))
  {
    hide IdleTime;
    IdleIsNotNegative(vs);
  }

  // ---------- Groups of a window ----------

  /** The run polls of one group, among the first n polls. */
  function MembersIn(w: Window, g: Group, n: nat): seq<Traffic>
    requires n <= |w.ps| == |w.gs|
  {
    if n == 0 then []
    else
      MembersIn(w, g, n - 1) + if w.gs[n - 1] == g && w.ps[n - 1].run.Some? then [TrafficOf(w.ps[n - 1])] else []
  }

  /** What the groups of a slot that end before n hide. */
  ghost function SlotHidden(w: Window, slot: int, n: nat): real
    requires n <= |w.ps| == |w.gs| == |w.slots|
  {
    if n == 0 then 0.0
    else
      SlotHidden(w, slot, n - 1)
      + if w.ps[n - 1].run.Some? && w.slots[n - 1] == slot && IsLast(w.gs, n - 1)
        then HiddenTime(MembersIn(w, w.gs[n - 1], n)) else 0.0
  }

  lemma {:induction false} NoMoreMembers(w: Window, g: Group, m: nat, n: nat)
    requires m <= n <= |w.ps| == |w.gs| && forall j :: m <= j < n ==> w.gs[j] != g
    ensures MembersIn(w, g, n) == MembersIn(w, g, m)
  {
    hide TrafficOf;
    if m < n {
      NoMoreMembers(w, g, m, n - 1);
      assert MembersIn(w, g, n - 1) + [] == MembersIn(w, g, n - 1);
    }
  }

  lemma {:induction false} MembersNext(w: Window, slot: int, n: nat, g: Group)
    requires n < |w.ps| == |w.gs| == |w.slots|
    ensures MembersIn(w, g, n + 1) ==
            if w.gs[n] == g && w.ps[n].run.Some? then MembersIn(w, g, n) + [TrafficOf(w.ps[n])]
            else MembersIn(w, g, n)
    ensures SlotHidden(w, slot, n + 1) ==
            SlotHidden(w, slot, n)
            + if w.ps[n].run.Some? && w.slots[n] == slot && IsLast(w.gs, n)
              then HiddenTime(MembersIn(w, w.gs[n], n + 1)) else 0.0
  {
    hide TrafficOf, HiddenTime, IsLast;
    assert MembersIn(w, g, n) + [] == MembersIn(w, g, n);
  }

  // ---------- Idle time in the two folds ----------

  /** Time gained at a poll without a request gained. */
  function IdleGain(requests: Reading, time: Reading, p: Poll): real {
    if GainValue(requests, p, R) == 0.0 then GainValue(time, p, T) else 0.0
  }

  /** The idle time of a slot in a fold that starts from these readings. */
  ghost function SlotIdle(w: Window, picked: Option<set<int>>, requests: Reading, time: Reading, slot: int, n: nat)
    : real
    requires n <= |w.ps| == |w.slots|
  {
    if n == 0 then 0.0
    else
      SlotIdle(w, picked, requests, time, slot, n - 1)
      + if Picks(picked, n - 1) && w.slots[n - 1] == slot
        then IdleGain(ReadingAt(w, picked, requests, R, n - 1), ReadingAt(w, picked, time, T, n - 1), w.ps[n - 1])
        else 0.0
  }

  ghost predicate Steady(w: Window) {
    SteadyRuns(w, R) && SteadyRuns(w, T)
  }

  /** Both readings of one fold. */
  datatype Readings = Readings(requests: Reading, time: Reading)

  function NextBoth(r: Readings, p: Poll): Readings {
    Readings(Next(r.requests, p, R), Next(r.time, p, T))
  }

  function IdleOf(here: bool, r: Readings, p: Poll): real {
    if here then IdleGain(r.requests, r.time, p) else 0.0
  }

  /** The reading of a poll of this run with these counters. */
  ghost predicate Shows(r: Readings, run: Option<int>, v: Traffic) {
    && r.requests.Some? && r.requests.value.run == run && r.requests.value.value == v.requests
    && r.time.Some? && r.time.value.run == run && r.time.value.value == v.time
  }

  /** A group so far: it rises, and while no request was counted all its time is idle. */
  ghost predicate Spanned(vs: seq<Traffic>) {
    && vs != [] && vs[0].requests <= Last(vs).requests && vs[0].time <= Last(vs).time
    && (vs[0].requests == Last(vs).requests ==> IdleTime(vs) == Last(vs).time - vs[0].time)
  }

  /** Before a group has ended the native fold has seen its idle time so far and the sampled one nothing; then the
      native fold is ahead by what the group hides. */
  ghost predicate Ahead(w: Window, q: int, vs: seq<Traffic>, native: Readings, sampled: Readings, gap: real,
                        hidden: real, r: Readings, slot: int)
    requires -1 <= q < |w.ps| == |w.gs| == |w.slots|
  {
    if q < 0 then native == sampled == r && gap == hidden
    else
      && Spanned(vs) && Last(vs) == TrafficOf(w.ps[q]) && Shows(native, w.ps[q].run, Last(vs))
      && if IsLast(w.gs, q) then sampled == native && gap == hidden
         else
           && Shows(sampled, w.ps[q].run, vs[0])
           && gap == hidden + if slot == w.slots[q] then IdleTime(vs) else 0.0
  }

  lemma {:induction false} BothCarried(w: Window, n: nat)
    requires Steady(w) && n < |w.ps|
    ensures Carries(w.ps[n], R) <==> w.ps[n].run.Some?
    ensures Carries(w.ps[n], T) <==> w.ps[n].run.Some?
    ensures |w.ps| == |w.gs| == |w.slots|
  {
  }

  lemma {:induction false} NextShows(r: Readings, p: Poll)
    requires Carries(p, R) && Carries(p, T)
    ensures Shows(NextBoth(r, p), p.run, TrafficOf(p))
    ensures NextBoth(r, p) == Readings(Some(Entry(p, R)), Some(Entry(p, T)))
  {
  }

  /** What a poll gains against a reading of its own run that is not above it. */
  lemma {:induction false} IdleAgainst(r: Readings, p: Poll, v: Traffic)
    requires Carries(p, R) && Carries(p, T) && Shows(r, p.run, v)
    requires v.requests <= TrafficOf(p).requests && v.time <= TrafficOf(p).time
    ensures IdleGain(r.requests, r.time, p) ==
            if TrafficOf(p).requests == v.requests then TrafficOf(p).time - v.time else 0.0
  {
  }

  lemma {:induction false} TrafficRises(w: Window, q: nat, n: nat)
    requires Steady(w) && q < n < |w.ps| && w.ps[q].run.Some? && w.ps[q].run == w.ps[n].run
    ensures TrafficOf(w.ps[q]).requests <= TrafficOf(w.ps[n]).requests
    ensures TrafficOf(w.ps[q]).time <= TrafficOf(w.ps[n]).time
  {
  }

  lemma {:induction false} SpanNext(vs: seq<Traffic>, v: Traffic)
    requires Spanned(vs) && Last(vs).requests <= v.requests && Last(vs).time <= v.time
    ensures Spanned(vs + [v]) && (vs + [v])[0] == vs[0] && Last(vs + [v]) == v
    ensures IdleTime(vs + [v]) == IdleTime(vs) + if v.requests == Last(vs).requests then v.time - Last(vs).time else 0.0
    ensures HiddenTime(vs + [v]) ==
            IdleTime(vs + [v]) - if v.requests == vs[0].requests then v.time - vs[0].time else 0.0
  {
    IdleNext(vs, v);
  }

  lemma {:induction false} SpanOfOne(v: Traffic)
    ensures Spanned([v]) && IdleTime([v]) == 0.0 && HiddenTime([v]) == 0.0
  {
  }

  lemma {:induction false} Opens(w: Window, q: int, n: nat, vs: seq<Traffic>, native: Readings, sampled: Readings,
                                 gap: real, hidden: real, r: Readings, slot: int)
    requires Steady(w) && -1 <= q < n < |w.ps| && w.ps[n].run.Some? && |w.ps| == |w.gs| == |w.slots|
    requires Ahead(w, q, vs, native, sampled, gap, hidden, r, slot) && (q >= 0 ==> IsLast(w.gs, q))
    ensures
      var p, here := w.ps[n], w.slots[n] == slot;
      Ahead(w, n, [TrafficOf(p)], NextBoth(native, p), NextBoth(sampled, p),
            gap + IdleOf(here, native, p) - IdleOf(here, sampled, p),
            hidden + (if here && IsLast(w.gs, n) then HiddenTime([TrafficOf(p)]) else 0.0), r, slot)
  {
    hide Steady, IsLast, IdleTime, HiddenTime, TrafficOf, IdleGain, Shows, NextBoth, Spanned;
    BothCarried(w, n);
    NextShows(native, w.ps[n]);
    NextShows(sampled, w.ps[n]);
    SpanOfOne(TrafficOf(w.ps[n]));
  }

  lemma {:induction false} StaysIn(w: Window, q: nat, n: nat, vs: seq<Traffic>, native: Readings, sampled: Readings,
                                   gap: real, hidden: real, r: Readings, slot: int)
    requires Steady(w) && q < n < |w.ps| == |w.gs| == |w.slots| && w.ps[n].run.Some? && w.ps[q].run == w.ps[n].run
    requires w.slots[q] == w.slots[n] && !IsLast(w.gs, q)
    requires Ahead(w, q, vs, native, sampled, gap, hidden, r, slot)
    ensures
      var p, here, last := w.ps[n], w.slots[n] == slot, IsLast(w.gs, n);
      var vs' := vs + [TrafficOf(p)];
      Ahead(w, n, vs', NextBoth(native, p), if last then NextBoth(sampled, p) else sampled,
            gap + IdleOf(here, native, p) - (if last then IdleOf(here, sampled, p) else 0.0),
            hidden + (if here && last then HiddenTime(vs') else 0.0), r, slot)
  {
    hide Steady, IsLast, IdleTime, HiddenTime, TrafficOf, IdleGain, Shows, NextBoth;
    var p := w.ps[n];
    BothCarried(w, n);
    TrafficRises(w, q, n);
    SpanNext(vs, TrafficOf(p));
    NextShows(native, p);
    NextShows(sampled, p);
    IdleAgainst(native, p, Last(vs));
    IdleAgainst(sampled, p, vs[0]);
  }

  // ---------- The two folds side by side ----------

  ghost function ReadingsAt(w: Window, picked: Option<set<int>>, r: Readings, n: nat): Readings
    requires n <= |w.ps|
  {
    Readings(ReadingAt(w, picked, r.requests, R, n), ReadingAt(w, picked, r.time, T, n))
  }

  ghost predicate AheadAt(w: Window, r: Readings, slot: int, n: nat)
    requires n <= |w.ps| == |w.gs| == |w.slots|
  {
    var q := LastRun(w.ps, n);
    var vs := if q < 0 then [] else MembersIn(w, w.gs[q], n);
    Ahead(w, q, vs, ReadingsAt(w, None, r, n), ReadingsAt(w, Some(Ends(w.gs)), r, n),
          SlotIdle(w, None, r.requests, r.time, slot, n)
          - SlotIdle(w, Some(Ends(w.gs)), r.requests, r.time, slot, n),
          SlotHidden(w, slot, n), r, slot)
  }

  lemma {:induction false} IdleNextPoll(w: Window, r: Readings, slot: int, n: nat, picked: Option<set<int>>)
    requires n < |w.ps| == |w.slots|
    ensures
      var readings, p, here := ReadingsAt(w, picked, r, n), w.ps[n], w.slots[n] == slot;
      && ReadingsAt(w, picked, r, n + 1) == (if Picks(picked, n) then NextBoth(readings, p) else readings)
      && SlotIdle(w, picked, r.requests, r.time, slot, n + 1) ==
         SlotIdle(w, picked, r.requests, r.time, slot, n) + if Picks(picked, n) then IdleOf(here, readings, p) else 0.0
  {
    hide IdleGain, Next;
  }

  lemma {:induction false} RunlessIdles(r: Readings, p: Poll, here: bool)
    requires !Carries(p, R) && !Carries(p, T)
    ensures NextBoth(r, p) == r && IdleOf(here, r, p) == 0.0
  {
  }

  lemma {:induction false} SteadyIsCarried(w: Window)
    requires Steady(w)
    ensures CarriedByRuns(w, R) && |w.ps| == |w.gs| == |w.slots|
    ensures forall i :: 0 <= i < |w.ps| ==> w.gs[i].run == w.ps[i].run
  {
  }

  lemma {:induction false} NextInside(w: Window, r: Readings, slot: int, n: nat, q: nat)
    requires Steady(w) && n < |w.ps| == |w.gs| == |w.slots| && w.ps[n].run.Some? && AheadAt(w, r, slot, n)
    requires q == LastRun(w.ps, n) && w.gs[q] == w.gs[n]
    ensures AheadAt(w, r, slot, n + 1)
  {
    hide Steady, Ahead, Ends, IsLast, IsFirst, SlotIdle, ReadingAt, SlotHidden, MembersIn, NextBoth, IdleOf, HiddenTime,
         TrafficOf, CarriedByRuns;
    SteadyIsCarried(w);
    SamplingLoss.NeighbourGroups(w, R, q, n);
    SamplingLoss.EndMeans(w.gs, n);
    IdleNextPoll(w, r, slot, n, None);
    IdleNextPoll(w, r, slot, n, Some(Ends(w.gs)));
    MembersNext(w, slot, n, w.gs[n]);
    StaysIn(w, q, n, MembersIn(w, w.gs[q], n), ReadingsAt(w, None, r, n), ReadingsAt(w, Some(Ends(w.gs)), r, n),
            SlotIdle(w, None, r.requests, r.time, slot, n)
            - SlotIdle(w, Some(Ends(w.gs)), r.requests, r.time, slot, n),
            SlotHidden(w, slot, n), r, slot);
  }

  lemma {:induction false} NoMembersBefore(w: Window, n: nat)
    requires n < |w.ps| == |w.gs| && IsFirst(w.gs, n)
    ensures MembersIn(w, w.gs[n], n) == []
  {
    NoMoreMembers(w, w.gs[n], 0, n);
  }

  lemma {:induction false} NextOpening(w: Window, r: Readings, slot: int, n: nat, q: int)
    requires Steady(w) && n < |w.ps| == |w.gs| == |w.slots| && w.ps[n].run.Some? && AheadAt(w, r, slot, n)
    requires q == LastRun(w.ps, n) && (q >= 0 ==> w.gs[q] != w.gs[n])
    ensures AheadAt(w, r, slot, n + 1)
  {
    hide Steady, Ahead, Ends, IsLast, IsFirst, SlotIdle, ReadingAt, SlotHidden, MembersIn, NextBoth, IdleOf, HiddenTime,
         TrafficOf, CarriedByRuns;
    SteadyIsCarried(w);
    SamplingLoss.NeighbourGroups(w, R, q, n);
    SamplingLoss.EndMeans(w.gs, n);
    IdleNextPoll(w, r, slot, n, None);
    IdleNextPoll(w, r, slot, n, Some(Ends(w.gs)));
    MembersNext(w, slot, n, w.gs[n]);
    NoMembersBefore(w, n);
    assert [] + [TrafficOf(w.ps[n])] == [TrafficOf(w.ps[n])];
    Opens(w, q, n, if q < 0 then [] else MembersIn(w, w.gs[q], n), ReadingsAt(w, None, r, n),
          ReadingsAt(w, Some(Ends(w.gs)), r, n),
          SlotIdle(w, None, r.requests, r.time, slot, n)
          - SlotIdle(w, Some(Ends(w.gs)), r.requests, r.time, slot, n),
          SlotHidden(w, slot, n), r, slot);
  }

  lemma {:induction false} NextRunless(w: Window, r: Readings, slot: int, n: nat)
    requires Steady(w) && n < |w.ps| == |w.gs| == |w.slots| && w.ps[n].run.None? && AheadAt(w, r, slot, n)
    ensures AheadAt(w, r, slot, n + 1)
  {
    hide Steady, Ahead, Ends, IsLast, SlotIdle, ReadingAt, SlotHidden, MembersIn, NextBoth, IdleOf, HiddenTime,
         TrafficOf, CarriedByRuns;
    BothCarried(w, n);
    IdleNextPoll(w, r, slot, n, None);
    IdleNextPoll(w, r, slot, n, Some(Ends(w.gs)));
    RunlessIdles(ReadingsAt(w, None, r, n), w.ps[n], w.slots[n] == slot);
    RunlessIdles(ReadingsAt(w, Some(Ends(w.gs)), r, n), w.ps[n], w.slots[n] == slot);
    var q := LastRun(w.ps, n);
    MembersNext(w, slot, n, w.gs[if q < 0 then n else q]);
  }

  lemma {:induction false} StartsAhead(w: Window, r: Readings, slot: int)
    requires |w.ps| == |w.gs| == |w.slots|
    ensures AheadAt(w, r, slot, 0)
  {
  }

  lemma {:induction false} StaysAhead(w: Window, r: Readings, slot: int, n: nat)
    requires Steady(w) && n <= |w.ps| == |w.gs| == |w.slots|
    ensures AheadAt(w, r, slot, n)
  {
    hide Steady, AheadAt;
    if n == 0 {
      StartsAhead(w, r, slot);
    } else {
      StaysAhead(w, r, slot, n - 1);
      var q := LastRun(w.ps, n - 1);
      if w.ps[n - 1].run.None? {
        NextRunless(w, r, slot, n - 1);
      } else if q >= 0 && w.gs[q] == w.gs[n - 1] {
        NextInside(w, r, slot, n - 1, q);
      } else {
        NextOpening(w, r, slot, n - 1, q);
      }
    }
  }

  lemma {:induction false} LastRunEnds(w: Window)
    requires Steady(w)
    ensures |w.ps| == |w.gs| == |w.slots| && (LastRun(w.ps, |w.ps|) >= 0 ==> IsLast(w.gs, LastRun(w.ps, |w.ps|)))
  {
    SteadyIsCarried(w);
    var q := LastRun(w.ps, |w.ps|);
    if q >= 0 {
      forall j | q < j < |w.gs| ensures w.gs[j] != w.gs[q] {
        assert w.gs[j].run == w.ps[j].run && w.gs[q].run == w.ps[q].run;
      }
    }
  }

  /** In every slot the native fold sees exactly the idle time that the slot's groups hide from the sampled one. */
  lemma {:induction false} SlotIdlesDiffer(w: Window, r: Readings, slot: int)
    requires Steady(w)
    ensures |w.ps| == |w.gs| == |w.slots|
    ensures SlotIdle(w, None, r.requests, r.time, slot, |w.ps|)
            - SlotIdle(w, Some(Ends(w.gs)), r.requests, r.time, slot, |w.ps|) == SlotHidden(w, slot, |w.ps|)
  {
    hide Steady, SlotIdle, SlotHidden, ReadingAt, Ends, IsLast, MembersIn, Spanned, Shows, TrafficOf;
    LastRunEnds(w);
    StaysAhead(w, r, slot, |w.ps|);
  }

  // ---------- When nothing is hidden ----------

  ghost predicate PlainInSlot(w: Window, slot: int)
    requires |w.ps| == |w.gs| == |w.slots|
  {
    forall i :: 0 <= i < |w.ps| && w.ps[i].run.Some? && w.slots[i] == slot ==> Plain(MembersIn(w, w.gs[i], |w.ps|))
  }

  /** The members of a group rise, up to its last run poll. */
  lemma {:induction false} MembersRise(w: Window, g: Group, n: nat) returns (last: int)
    requires Steady(w) && n <= |w.ps| == |w.gs|
    ensures RisesTo(w, g, n, last)
  {
    hide Steady, RisesTo;
    if n == 0 {
      last := -1;
      NothingRises(w, g);
    } else {
      SteadyIsCarried(w);
      last := MembersRise(w, g, n - 1);
      if w.gs[n - 1] == g && w.ps[n - 1].run.Some? {
        RisesByOne(w, g, n - 1, last);
        last := n - 1;
      } else {
        RisesNoFurther(w, g, n - 1, last);
      }
    }
  }

  ghost predicate RisesTo(w: Window, g: Group, n: nat, last: int)
    requires n <= |w.ps| == |w.gs|
  {
    && Rising(MembersIn(w, g, n)) && -1 <= last < n && (last < 0 <==> MembersIn(w, g, n) == [])
    && (last >= 0 ==> w.ps[last].run.Some? && w.gs[last] == g && Last(MembersIn(w, g, n)) == TrafficOf(w.ps[last]))
  }

  lemma {:induction false} NothingRises(w: Window, g: Group)
    requires |w.ps| == |w.gs|
    ensures RisesTo(w, g, 0, -1)
  {
  }

  lemma {:induction false} RisesByOne(w: Window, g: Group, n: nat, last: int)
    requires Steady(w) && n < |w.ps| == |w.gs| && w.gs[n] == g && w.ps[n].run.Some? && RisesTo(w, g, n, last)
    ensures RisesTo(w, g, n + 1, n)
  {
    hide Steady, Rising, TrafficOf;
    SteadyIsCarried(w);
    if last >= 0 {
      TrafficRises(w, last, n);
    }
    RisingAppend(MembersIn(w, g, n), TrafficOf(w.ps[n]));
  }

  lemma {:induction false} RisesNoFurther(w: Window, g: Group, n: nat, last: int)
    requires n < |w.ps| == |w.gs| && (w.gs[n] != g || w.ps[n].run.None?) && RisesTo(w, g, n, last)
    ensures RisesTo(w, g, n + 1, last)
  {
    hide Rising, TrafficOf;
    assert MembersIn(w, g, n) + [] == MembersIn(w, g, n);
  }

  lemma {:induction false} RisingAppend(vs: seq<Traffic>, v: Traffic)
    requires Rising(vs) && (vs != [] ==> Last(vs).requests <= v.requests && Last(vs).time <= v.time)
    ensures Rising(vs + [v])
  {
  }

  lemma {:induction false} MembersPlain(w: Window, g: Group, n: nat)
    requires Steady(w) && n <= |w.ps| == |w.gs|
    ensures HiddenTime(MembersIn(w, g, n)) >= 0.0
    ensures HiddenTime(MembersIn(w, g, n)) == 0.0 <==> Plain(MembersIn(w, g, n))
  {
    hide Steady, HiddenTime, Plain, MembersIn, Rising, TrafficOf;
    var last := MembersRise(w, g, n);
    assert RisesTo(w, g, n, last);
    HiddenIffNotPlain(MembersIn(w, g, n));
  }

  lemma {:induction false} HiddenGrows(w: Window, slot: int, m: nat, n: nat)
    requires Steady(w) && m <= n <= |w.ps| == |w.gs| == |w.slots|
    ensures 0.0 <= SlotHidden(w, slot, m) <= SlotHidden(w, slot, n)
    decreases n
  {
    hide Steady, HiddenTime, IsLast, MembersIn, Plain;
    if n > 0 {
      MembersPlain(w, w.gs[n - 1], n);
      HiddenGrows(w, slot, if m < n then m else n - 1, n - 1);
    }
  }

  lemma {:induction false} EndedMembers(w: Window, n: nat)
    requires n < |w.ps| == |w.gs| && IsLast(w.gs, n)
    ensures MembersIn(w, w.gs[n], |w.ps|) == MembersIn(w, w.gs[n], n + 1)
  {
    NoMoreMembers(w, w.gs[n], n + 1, |w.ps|);
  }

  lemma {:induction false} PlainHidesNothing(w: Window, slot: int, n: nat)
    requires Steady(w) && n <= |w.ps| == |w.gs| == |w.slots| && PlainInSlot(w, slot)
    ensures SlotHidden(w, slot, n) == 0.0
  {
    hide Steady, HiddenTime, IsLast, MembersIn, Plain;
    if n > 0 {
      PlainHidesNothing(w, slot, n - 1);
      MembersPlain(w, w.gs[n - 1], n);
      if IsLast(w.gs, n - 1) {
        EndedMembers(w, n - 1);
      }
    }
  }

  lemma {:induction false} HidingNothingIsPlain(w: Window, slot: int, i: nat)
    requires Steady(w) && i < |w.ps| == |w.gs| == |w.slots| && w.ps[i].run.Some? && w.slots[i] == slot
    requires SlotHidden(w, slot, |w.ps|) == 0.0
    ensures Plain(MembersIn(w, w.gs[i], |w.ps|))
  {
    hide Steady, HiddenTime, IsLast, MembersIn, Plain, SlotHidden, CarriedByRuns;
    SteadyIsCarried(w);
    var j := SamplingTheorem.LastOfGroup(w.gs, i);
    BucketsGrow(w, R, i, j);
    EndedMembers(w, j);
    MembersNext(w, slot, j, w.gs[j]);
    HiddenGrows(w, slot, j + 1, |w.ps|);
    HiddenGrows(w, slot, 0, j);
    MembersPlain(w, w.gs[j], j + 1);
  }

  /** A slot hides nothing exactly if each of its groups counts no request or gains no time while idle. */
  lemma {:induction false} SlotHidesNothingIff(w: Window, slot: int)
    requires Steady(w)
    ensures |w.ps| == |w.gs| == |w.slots|
    ensures SlotHidden(w, slot, |w.ps|) >= 0.0
    ensures SlotHidden(w, slot, |w.ps|) == 0.0 <==> PlainInSlot(w, slot)
  {
    hide Steady, SlotHidden, MembersIn, Plain;
    SteadyIsCarried(w);
    HiddenGrows(w, slot, 0, |w.ps|);
    if PlainInSlot(w, slot) {
      PlainHidesNothing(w, slot, |w.ps|);
    }
    if SlotHidden(w, slot, |w.ps|) == 0.0 {
      forall i | 0 <= i < |w.ps| && w.ps[i].run.Some? && w.slots[i] == slot
        ensures Plain(MembersIn(w, w.gs[i], |w.ps|))
      {
        HidingNothingIsPlain(w, slot, i);
      }
    }
  }
}
