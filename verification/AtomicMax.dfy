/** The lock-free maximum: any number of threads raise one cell by compare-and-swap, under any interleaving. */
module AtomicMax {
  import opened Common

  /** Where a thread stands: before a load, before the swap against a loaded value that is below its candidate, or
      done. */
  datatype Place = Loading | Swapping(current: nat) | Finished

  datatype Thread = Thread(candidate: nat, place: Place)

  /** The shared cell and the threads, with counts of the successful and failed swaps and of all atomic steps. */
  datatype System = System(cell: nat, threads: seq<Thread>, raises: nat, failures: nat, steps: nat)

  function Begin(start: nat, candidates: seq<nat>): System {
    System(start, seq(|candidates|, i requires 0 <= i < |candidates| => Thread(candidates[i], Loading)), 0, 0, 0)
  }

  /** One atomic step of thread i: a load with its comparison, or a swap. A finished thread has no step. */
  function Step(s: System, i: nat): System
    requires i < |s.threads|
  {
    var t := s.threads[i];
    match t.place
    case Finished => s
    case Loading =>
      var next := if t.candidate > s.cell then Swapping(s.cell) else Finished;
      s.(threads := s.threads[i := t.(place := next)], steps := s.steps + 1)
    case Swapping(current) =>
      if s.cell == current then
        s.(cell := t.candidate, threads := s.threads[i := t.(place := Finished)],
           raises := s.raises + 1, steps := s.steps + 1)
      else
        s.(threads := s.threads[i := t.(place := Loading)], failures := s.failures + 1, steps := s.steps + 1)
  }

  predicate ValidSchedule(schedule: seq<nat>, n: nat) {
    forall i :: 0 <= i < |schedule| ==> schedule[i] < n
  }

  function Run(s: System, schedule: seq<nat>): (r: System)
    requires ValidSchedule(schedule, |s.threads|)
    ensures |r.threads| == |s.threads|
  {
    if schedule == [] then s else Step(Run(s, Init(schedule)), Last(schedule))
  }

  // ---------- Counting threads ----------

  predicate AtPlace(t: Thread, cell: nat, kind: Kind) {
    match kind
    case Waiting => t.place.Loading?
    case Stale => t.place.Swapping? && t.place.current != cell
    case Done => t.place.Finished?
  }

  datatype Kind = Waiting | Stale | Done

  function Number(threads: seq<Thread>, cell: nat, kind: Kind): (n: nat)
    ensures n <= |threads|
  {
    if threads == [] then 0
    else Number(Init(threads), cell, kind) + if AtPlace(Last(threads), cell, kind) then 1 else 0
  }

  function One(t: Thread, cell: nat, kind: Kind): nat {
    if AtPlace(t, cell, kind) then 1 else 0
  }

  /** Moving one thread changes a count by that thread alone. */
  lemma {:induction false} NumberUpdate(threads: seq<Thread>, cell: nat, kind: Kind, i: nat, t: Thread)
    requires i < |threads|
    ensures Number(threads[i := t], cell, kind) ==
            Number(threads, cell, kind) - One(threads[i], cell, kind) + One(t, cell, kind)
  {
    var init := Init(threads);
    if i < |init| {
      assert Init(threads[i := t]) == init[i := t];
      NumberUpdate(init, cell, kind, i, t);
    } else {
      assert Init(threads[i := t]) == init;
    }
  }

  /** Nobody is both stale and done, and the rest is at most everybody. */
  lemma {:induction false} StaleOrDone(threads: seq<Thread>, cell: nat)
    ensures Number(threads, cell, Stale) + Number(threads, cell, Done) + Number(threads, cell, Waiting) <= |threads|
  {
    if threads != [] {
      StaleOrDone(Init(threads), cell);
    }
  }

  lemma {:induction false} PlacesIgnoreCell(threads: seq<Thread>, a: nat, b: nat)
    ensures Number(threads, a, Done) == Number(threads, b, Done)
    ensures Number(threads, a, Waiting) == Number(threads, b, Waiting)
  {
    if threads != [] {
      PlacesIgnoreCell(Init(threads), a, b);
    }
  }

  // ---------- The invariant ----------

  /** The most failed swaps that v successful ones of n threads can cause: each success of a thread that is then done
      can spoil one pending swap of every thread still running. */
  function Charge(n: int, v: nat): int {
    if v == 0 then 0 else Charge(n, v - 1) + n - v
  }

  lemma {:induction false} ChargeNext(n: int, v: nat)
    ensures Charge(n, v + 1) == Charge(n, v) + n - (v + 1)
  {
  }

  ghost predicate Sound(s: System, start: nat, candidates: seq<nat>) {
    && |s.threads| == |candidates|
    && start <= s.cell && (s.cell == start || s.cell in candidates)
    && (forall i :: 0 <= i < |candidates| ==> s.threads[i].candidate == candidates[i])
    && (forall i :: 0 <= i < |candidates| && s.threads[i].place.Swapping? ==>
          s.threads[i].place.current <= s.cell && s.threads[i].place.current < candidates[i])
    && (forall i :: 0 <= i < |candidates| && s.threads[i].place.Finished? ==> candidates[i] <= s.cell)
  }

  /** Failed swaps, and those bound to fail, are paid for by the successful ones. */
  ghost predicate Charged(s: System) {
    && s.raises <= Number(s.threads, s.cell, Done)
    && s.failures + Number(s.threads, s.cell, Stale) <= Charge(|s.threads|, s.raises)
    && s.steps + Number(s.threads, s.cell, Waiting) == |s.threads| + s.raises + 2 * s.failures
  }

  lemma {:induction false} BeginsSound(start: nat, candidates: seq<nat>)
    ensures Sound(Begin(start, candidates), start, candidates) && Charged(Begin(start, candidates))
  {
    AllWaiting(Begin(start, candidates).threads, start);
  }

  lemma {:induction false} AllWaiting(threads: seq<Thread>, cell: nat)
    requires forall i :: 0 <= i < |threads| ==> threads[i].place.Loading?
    ensures Number(threads, cell, Waiting) == |threads| && Number(threads, cell, Stale) == 0
    ensures Number(threads, cell, Done) == 0
  {
    if threads != [] {
      AllWaiting(Init(threads), cell);
    }
  }

  lemma {:induction false} StepIsSound(s: System, i: nat, start: nat, candidates: seq<nat>)
    requires Sound(s, start, candidates) && i < |candidates|
    ensures Sound(Step(s, i), start, candidates) && s.cell <= Step(s, i).cell
  {
    var after := Step(s, i);
    assert candidates[i] in candidates;
    forall j | 0 <= j < |candidates| && j != i ensures after.threads[j] == s.threads[j] {}
  }

  lemma {:induction false} StepIsCharged(s: System, i: nat, start: nat, candidates: seq<nat>)
    requires Sound(s, start, candidates) && Charged(s) && i < |candidates|
    ensures Charged(Step(s, i))
  {
    hide Number, Charge;
    var t, after := s.threads[i], Step(s, i);
    if t.place != Finished {
      var t' := after.threads[i];
      NumberUpdate(s.threads, s.cell, Waiting, i, t');
      NumberUpdate(s.threads, s.cell, Stale, i, t');
      NumberUpdate(s.threads, s.cell, Done, i, t');
      if t.place.Swapping? && s.cell == t.place.current {
        PlacesIgnoreCell(after.threads, s.cell, after.cell);
        StaleOrDone(after.threads, after.cell);
        ChargeNext(|s.threads|, s.raises);
      }
    }
  }

  lemma {:induction false} RunIsSound(start: nat, candidates: seq<nat>, schedule: seq<nat>)
    requires ValidSchedule(schedule, |candidates|)
    ensures
      var s := Run(Begin(start, candidates), schedule);
      Sound(s, start, candidates) && Charged(s)
  {
    hide Sound, Charged, Step;
    if schedule == [] {
      BeginsSound(start, candidates);
    } else {
      var init := Init(schedule);
      RunIsSound(start, candidates, init);
      var s := Run(Begin(start, candidates), init);
      assert |s.threads| == |candidates| && Last(schedule) < |candidates|;
      StepIsSound(s, Last(schedule), start, candidates);
      StepIsCharged(s, Last(schedule), start, candidates);
    }
  }

  // ---------- Results ----------

  /** The cell never decreases, step by step. */
  lemma {:induction false} CellNeverDecreases(start: nat, candidates: seq<nat>, schedule: seq<nat>, earlier: nat)
    requires ValidSchedule(schedule, |candidates|) && earlier <= |schedule|
    ensures ValidSchedule(schedule[..earlier], |candidates|)
    ensures Run(Begin(start, candidates), schedule[..earlier]).cell <= Run(Begin(start, candidates), schedule).cell
  {
    hide Step;
    if earlier < |schedule| {
      var init := Init(schedule);
      CellNeverDecreases(start, candidates, init, earlier);
      assert init[..earlier] == schedule[..earlier];
      RunIsSound(start, candidates, init);
      StepIsSound(Run(Begin(start, candidates), init), Last(schedule), start, candidates);
    } else {
      WholePrefix(schedule);
    }
  }

  function Maximum(start: nat, candidates: seq<nat>): (m: nat)
    ensures start <= m && (m == start || m in candidates) && forall c :: c in candidates ==> c <= m
  {
    if candidates == [] then start
    else
      var before := Maximum(start, Init(candidates));
      assert candidates == Init(candidates) + [Last(candidates)];
      if Last(candidates) > before then Last(candidates) else before
  }

  /** Whatever the interleaving, when all threads are done the cell holds the maximum of its start and all
      candidates. */
  lemma {:induction false} EndsAtMaximum(start: nat, candidates: seq<nat>, schedule: seq<nat>)
    requires ValidSchedule(schedule, |candidates|)
    requires
      var s := Run(Begin(start, candidates), schedule);
      forall i :: 0 <= i < |s.threads| ==> s.threads[i].place.Finished?
    ensures Run(Begin(start, candidates), schedule).cell == Maximum(start, candidates)
  {
    hide Run, Charged;
    RunIsSound(start, candidates, schedule);
    var s := Run(Begin(start, candidates), schedule);
    forall c | c in candidates ensures c <= s.cell {
      var i :| 0 <= i < |candidates| && candidates[i] == c;
      assert s.threads[i].place.Finished?;
    }
  }

  lemma {:induction false} ChargeInClosedForm(n: int, v: nat)
    ensures 2 * Charge(n, v) == 2 * v * n - v * (v + 1)
  {
    if v > 0 {
      ChargeInClosedForm(n, v - 1);
      assert (v - 1) * v == v * (v + 1) - 2 * v;
      assert 2 * (v - 1) * n == 2 * v * n - 2 * n;
    }
  }

  lemma {:induction false} ChargeIsBounded(n: nat, v: nat)
    requires v <= n
    ensures 2 * Charge(n, v) <= n * (n - 1)
    decreases n - v
  {
    if v == n {
      ChargeInClosedForm(n, n);
      assert 2 * n * n - n * (n + 1) == n * (n - 1);
    } else {
      ChargeIsBounded(n, v + 1);
    }
  }

  /** Every failed swap is paid for by another thread's raise: n threads fail at most n(n-1)/2 times in all, and the
      whole run takes at most n * n + n atomic steps, whatever the interleaving. */
  lemma {:induction false} WorkIsBounded(start: nat, candidates: seq<nat>, schedule: seq<nat>)
    requires ValidSchedule(schedule, |candidates|)
    ensures
      var n := |candidates|;
      var s := Run(Begin(start, candidates), schedule);
      && 2 * s.failures <= n * (n - 1) && s.failures <= Charge(n, s.raises)
      && s.raises <= n && s.steps <= n * n + n
  {
    hide Run, Number, Charge;
    RunIsSound(start, candidates, schedule);
    var n := |candidates|;
    var s := Run(Begin(start, candidates), schedule);
    assert s.raises <= n;
    ChargeIsBounded(n, s.raises);
    assert n * (n - 1) + n == n * n;
  }

  /** A schedule that only picks unfinished threads is a run of that many steps, so that it ends. */
  lemma {:induction false} BusySchedulesEnd(start: nat, candidates: seq<nat>, schedule: seq<nat>)
    requires ValidSchedule(schedule, |candidates|) && Busy(start, candidates, schedule)
    ensures |schedule| <= |candidates| * |candidates| + |candidates|
  {
    BusyCounts(start, candidates, schedule);
    WorkIsBounded(start, candidates, schedule);
  }

  predicate Busy(start: nat, candidates: seq<nat>, schedule: seq<nat>)
    requires ValidSchedule(schedule, |candidates|)
  {
    schedule != [] ==>
      && Busy(start, candidates, Init(schedule))
      && !Run(Begin(start, candidates), Init(schedule)).threads[Last(schedule)].place.Finished?
  }

  lemma {:induction false} BusyCounts(start: nat, candidates: seq<nat>, schedule: seq<nat>)
    requires ValidSchedule(schedule, |candidates|) && Busy(start, candidates, schedule)
    ensures Run(Begin(start, candidates), schedule).steps == |schedule|
  {
    if schedule != [] {
      BusyCounts(start, candidates, Init(schedule));
    }
  }

  // ---------- The loop of one thread ----------

  class AtomicCell {
    var value: nat

    constructor (value: nat)
      ensures this.value == value
    {
      this.value := value;
    }

    method Load() returns (current: nat)
      ensures current == value
    {
      current := value;
    }

    method CompareAndSwap(current: nat, next: nat) returns (swapped: bool)
      modifies this
      ensures swapped <==> old(value) == current
      ensures value == if swapped then next else old(value)
    {
      swapped := value == current;
      if swapped {
        value := next;
      }
    }

    /** Other threads raise the cell, one after the other, to those of their candidates that are higher. */
    method Interfere(candidates: seq<nat>)
      modifies this
      ensures value == Maximum(old(value), candidates)
    {
      var i := 0;
      while i < |candidates|
        invariant 0 <= i <= |candidates|
        invariant value == Maximum(old(value), candidates[..i])
      {
        InitOfPrefix(candidates, i);
        if candidates[i] > value {
          value := candidates[i];
        }
        i := i + 1;
      }
      WholePrefix(candidates);
    }
  }

  /** What a value becomes by the raises that precede the first n steps of a thread. */
  function RaisedUpTo(v: nat, others: seq<seq<nat>>, n: nat): (r: nat)
    ensures v <= r
  {
    if n == 0 then v
    else Maximum(RaisedUpTo(v, others, n - 1), if n <= |others| then others[n - 1] else [])
  }

  /** The loop of one thread while others go on: they may raise the cell by any list of candidates before each of its
      atomic steps. It ends with the cell at the greatest of its candidate and everything seen until then, at the
      latest two steps after the others fall silent. */
  method UpdateAtomicMax(cell: AtomicCell, candidate: nat, others: seq<seq<nat>>) returns (steps: nat)
    modifies cell
    ensures cell.value == Maximum(RaisedUpTo(old(cell.value), others, steps), [candidate])
    ensures 1 <= steps <= |others| + 2
  {
    hide Maximum;
    Disturb(cell, others, 0);
    var current := cell.Load();
    steps := 1;
    while candidate > current
      invariant current == cell.value == RaisedUpTo(old(cell.value), others, steps)
      invariant 1 <= steps <= |others| + 2 && (steps >= |others| + 2 ==> candidate <= current)
      decreases |others| + 2 - steps
    {
      Disturb(cell, others, steps);
      var swapped := cell.CompareAndSwap(current, candidate);
      steps := steps + 1;
      if swapped {
        MaximumOfOne(current, candidate);
        return;
      }
      Disturb(cell, others, steps);
      current := cell.Load();
      steps := steps + 1;
    }
    MaximumOfOne(current, candidate);
  }

  lemma {:induction false} MaximumOfOne(v: nat, candidate: nat)
    ensures Maximum(v, [candidate]) == if candidate > v then candidate else v
  {
  }

  /** What other threads do before the step with this number. */
  method Disturb(cell: AtomicCell, others: seq<seq<nat>>, step: nat)
    modifies cell
    ensures cell.value == Maximum(old(cell.value), if step < |others| then others[step] else [])
  {
    if step < |others| {
      cell.Interfere(others[step]);
    }
  }
}
