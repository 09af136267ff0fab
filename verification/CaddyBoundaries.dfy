/** Where the runs of a Caddy target end, and with them the deltas in its charts. */
module CaddyBoundaries {
  import opened Common
  import opened Collection
  import opened CaddyPopulation
  import opened CaddyTotals
  import opened CaddyCollector
  import opened CaddyRuns
  import opened CaddyContinuity
  import opened Database
  import Monitor

  /** A poll that reads a population and records it. */
  ghost predicate Collects(w: World, a: Action) {
    && a.Poll? && Asks(w, a.now, a.calls) && Gathered(w.settings, a.scrape).Some?
    && a.calls.run.Works? && a.calls.save.Works? && a.calls.reload.Works?
  }

  ghost function AfterAll(w: World, actions: seq<Action>): World {
    if actions == [] then w else After(AfterAll(w, Init(actions)), Last(actions))
  }

  ghost predicate NoneCollects(w: World, actions: seq<Action>) {
    actions != [] ==>
      NoneCollects(w, Init(actions)) && !Collects(AfterAll(w, Init(actions)), Last(actions))
  }

  /** Reading the history and deleting old polls leave monitor and collector alone. */
  predicate Harmless(a: Action) {
    a.LoadHistory? || a.DeleteBefore?
  }

  function LastRun(w: World): Option<int> {
    if w.db.rows == [] then None else Last(w.db.rows).poll.run
  }

  // ---------- A poll that is recorded ----------

  /** The monitor's latest attempt succeeded with this population under this stored run. */
  ghost predicate Ends(w: World, run: int, p: Population) {
    && !w.mon.noPoll && w.mon.status.lastSuccessAt.Some? && w.mon.status.failures == 0
    && w.mon.previous.Some? && w.mon.previous.value.row.poll.run == Some(run)
    && RunAt(w.db.runs, run).Some?
    && w.memory == Memory(Some(p.tuples), p.server)
  }

  /** The monitor cannot carry a run on: it is switched off, has not succeeded yet, or has failed since. */
  predicate Broken(m: Monitor.State) {
    m.noPoll || m.status.lastSuccessAt.None? || m.status.failures > 0
  }

  /** With a working store a run is found, the one of the verdict. */
  lemma {:induction false} RunIsDetected(w: World, result: CollectionResult, calls: Monitor.Calls)
    requires Coupled(w.memory, w.mon, BooksOf(w)) && !w.mon.noPoll
    requires result.source == CADDY_SOURCE && calls.run.Works?
    ensures
      var run := Monitor.DetectAppRun(w.mon, w.db.runs, result, calls.newRun, calls.run).0;
      && run.Success?
      && run.value == if Unbroken(w.mon) && !result.continuityBreak then w.mon.previous.value.row.poll.run.value
                      else calls.newRun
  {
    hide RunAt, Touched, Ensured, Takes;
    EnsuredIsNew(w.db.runs, result.started, calls.newRun);
  }

  lemma {:induction false} NothingToRefuse(result: CollectionResult, memory: Memory, p: Population)
    requires Reports(result, None, Times(result.started, result.finished), Some(p), memory)
    ensures Monitor.Clean(result, None) && Storable(result)
  {
    hide Breaks;
  }

  lemma {:induction false} RowBecomesLast(b: Books, row: PollRow)
    requires Kept(b) && b.clock <= row.poll.ts && forall r :: r in b.db.rows ==> r.poll.id < row.poll.id
    ensures Inserted(b.db.rows, row) == b.db.rows + [row]
  {
    forall r | r in b.db.rows ensures r.poll.ts <= row.poll.ts {
      assert Fits(b, r);
    }
    AppendInOrder(b.db.rows, row);
  }

  lemma {:induction false} CollectedIsRecorded(w: World, a: Action, p: Population) returns (run: int)
    requires Sound(w) && Possible(w, a) && Collects(w, a) && Gathered(w.settings, a.scrape) == Some(p)
    ensures Ends(After(w, a), run, p) && LastRun(After(w, a)) == Some(run)
    ensures
      var m := Monitor.Loaded(w.mon, w.db, a.calls.load, a.now).value;
      run == if Unbroken(m) && !Breaks(w.memory, p) then m.previous.value.row.poll.run.value else a.calls.newRun
  {
    hide Kept, Takes, Complete, Breaks, RunAt, Inserted, GrowsTo, Carried, Parsed, Gathered;
    var m := Monitor.Loaded(w.mon, w.db, a.calls.load, a.now).value;
    LoadingKeepsCoupling(w, a.calls.load, a.now);
    var loaded := w.(mon := m);
    var found := Monitor.DetectAppRun(m, w.db.runs, a.result, a.calls.newRun, a.calls.run);
    RunIsDetected(loaded, a.result, a.calls);
    DetectionTakes(loaded, a.result, p, a.calls);
    run := found.0.value;
    NothingToRefuse(a.result, w.memory, p);
    NothingAnnounced(m, a.result);
    RowBecomesLast(BooksOf(w), RowOf(a.calls.newPoll, Some(run), a.result));
    RecordedBy(w, a, m, p, run, found.1);
  }

  lemma {:induction false} RecordedBy(w: World, a: Action, m: Monitor.State, p: Population, run: int, runs: seq<Run>)
    requires Collects(w, a) && Gathered(w.settings, a.scrape) == Some(p)
    requires Monitor.Loaded(w.mon, w.db, a.calls.load, a.now) == Success(m) && !m.noPoll
    requires Monitor.DetectAppRun(m, w.db.runs, a.result, a.calls.newRun, a.calls.run) == (Success(run), runs)
    requires RunAt(runs, run).Some? && a.err.None?
    requires Monitor.Clean(a.result, None) && Storable(a.result)
    requires Monitor.Announced(a.result.(processStart := Monitor.StartOf(a.result)), Monitor.VerdictOf(m, a.result))
             == a.result
    requires
      var row := RowOf(a.calls.newPoll, Some(run), a.result);
      Inserted(w.db.rows, row) == w.db.rows + [row]
    ensures Ends(After(w, a), run, p) && LastRun(After(w, a)) == Some(run)
  {
    hide RunAt, Inserted, Gathered, Storable, Monitor.Clean, Monitor.Announced, Monitor.VerdictOf, Monitor.DetectAppRun,
         Monitor.Loaded, HasErrorEvent;
    var row := RowOf(a.calls.newPoll, Some(run), a.result);
    StoredRow(m, w.db.(runs := runs), a.result, row, run, a.calls);
  }

  lemma {:induction false} StoredRow(m: Monitor.State, db: Db, result: CollectionResult, row: PollRow, run: int,
                                     calls: Monitor.Calls)
    requires Monitor.Clean(result, None) && Storable(result) && calls.save.Works? && calls.reload.Works?
    requires row == RowOf(calls.newPoll, Some(run), result) && Inserted(db.rows, row) == db.rows + [row]
    ensures
      Monitor.Stored(m, db, result, None, Some(run), calls) ==
      (Monitor.Succeeded(m, result.finished, calls.newPoll, SnapshotOf(row, db.runs)), db.(rows := db.rows + [row]))
  {
    hide Inserted, Storable, Monitor.Clean, SnapshotOf, HasErrorEvent;
  }

  // ---------- What lies between two recorded polls ----------

  lemma {:induction false} HarmlessKeeps(w: World, actions: seq<Action>, run: int, p: Population)
    requires Ends(w, run, p) && forall a :: a in actions ==> Harmless(a)
    ensures Ends(AfterAll(w, actions), run, p)
  {
    if actions != [] {
      forall a | a in Init(actions) ensures a in actions {}
      HarmlessKeeps(w, Init(actions), run, p);
      assert Last(actions) in actions;
    }
  }

  /** A poll that reaches the store and is not recorded is a failure. */
  lemma {:induction false} UnrecordedFails(m: Monitor.State, db: Db, result: CollectionResult, err: Option<string>,
                                           calls: Monitor.Calls)
    requires Monitor.Clean(result, err) ==>
               !(calls.run.Works? && calls.save.Works? && calls.reload.Works?)
    ensures Monitor.Concluded(m, db, result, err, calls).0.status.failures > 0
  {
    hide Storable, Inserted, RowOf, SnapshotOf, HasErrorEvent, Monitor.VerdictOf, Monitor.Announced, RunAt, Touched,
         Ensured;
  }

  lemma {:induction false} UnrecordedBreaks(w: World, a: Action)
    requires a.Poll? && Possible(w, a) && !Collects(w, a) && !w.mon.noPoll && w.mon.previous.Some?
    ensures Broken(After(w, a).mon)
  {
    hide Possible, Gathered, Monitor.Concluded;
    CleanExactlyIfGathered(w, a);
    UnrecordedFails(w.mon, w.db, a.result, ErrorText(a.err), a.calls);
  }

  /** Anything but a recorded poll leaves a monitor that cannot carry its run on in that state. */
  lemma {:induction false} BrokenStays(w: World, a: Action)
    requires Sound(w) && Possible(w, a) && !Collects(w, a) && Broken(w.mon)
    ensures Broken(After(w, a).mon)
  {
    hide Possible, Gathered, Monitor.Concluded, Kept, Takes;
    if a.Poll? && !w.mon.noPoll {
      CleanExactlyIfGathered(w, a);
      var loaded := Monitor.Loaded(w.mon, w.db, a.calls.load, a.now);
      if loaded.Success? {
        UnrecordedFails(loaded.value, w.db, a.result, ErrorText(a.err), a.calls);
      }
    }
  }

  lemma {:induction false} HarmfulBreaks(w: World, a: Action, run: int, p: Population)
    requires Sound(w) && Possible(w, a) && !Collects(w, a) && Ends(w, run, p) && !Harmless(a)
    ensures Broken(After(w, a).mon)
  {
    hide Gathered, Kept, Takes, Coupled;
    if a.Poll? {
      UnrecordedBreaks(w, a);
    }
  }

  // ---------- Over a whole life ----------

  lemma {:induction false} ReachedThrough(settings: Settings, a: seq<Action>, b: seq<Action>)
    ensures Reached(settings, a + b) == AfterAll(Reached(settings, a), b)
    ensures PossibleRun(settings, a + b) ==> PossibleRun(settings, a)
  {
    hide After, Possible;
    if b == [] {
      assert a + b == a;
    } else {
      InitOfConcat(a, b);
      ReachedThrough(settings, a, Init(b));
    }
  }

  lemma {:induction false} LastIsPossible(settings: Settings, actions: seq<Action>, a: Action)
    requires PossibleRun(settings, actions + [a])
    ensures PossibleRun(settings, actions) && Sound(Reached(settings, actions))
        && Possible(Reached(settings, actions), a)
    ensures Reached(settings, actions + [a]) == After(Reached(settings, actions), a)
  {
    hide After, Possible, Sound;
    InitOfAppend(actions, a);
    RunsAreSound(settings, actions);
  }

  /** Whatever is not harmless breaks the run, for good. */
  lemma {:induction false} MiddleDecides(settings: Settings, start: seq<Action>, middle: seq<Action>, run: int,
                                         p: Population)
    requires PossibleRun(settings, start + middle) && Ends(Reached(settings, start), run, p)
    requires NoneCollects(Reached(settings, start), middle)
    ensures
      var w := Reached(settings, start + middle);
      if forall c :: c in middle ==> Harmless(c) then Ends(w, run, p) else Broken(w.mon)
  {
    hide Reached, PossibleRun, Ends, Broken, Harmless, Collects, After, Possible, Sound;
    ReachedThrough(settings, start, middle);
    if forall c :: c in middle ==> Harmless(c) {
      HarmlessKeeps(Reached(settings, start), middle, run, p);
    } else {
      var earlier, c := start + Init(middle), Last(middle);
      assert start + middle == earlier + [c];
      LastIsPossible(settings, earlier, c);
      ReachedThrough(settings, start, Init(middle));
      MiddleDecides(settings, start, Init(middle), run, p);
      var w := Reached(settings, earlier);
      assert middle == Init(middle) + [c];
      if forall d :: d in Init(middle) ==> Harmless(d) {
        HarmfulBreaks(w, c, run, p);
      } else {
        BrokenStays(w, c);
      }
    }
  }

  lemma {:induction false} RunOfTheNext(w: World, a: Action, p: Population, run: int, before: Population)
      returns (next: int)
    requires Sound(w) && Possible(w, a) && Collects(w, a) && Gathered(w.settings, a.scrape) == Some(p)
    requires Ends(w, run, before) || (Broken(w.mon) && RunAt(w.db.runs, run).Some?)
    ensures LastRun(After(w, a)) == Some(next)
    ensures next == run <==> Ends(w, run, before) && Continues(before, p)
  {
    hide Kept, Takes, Gathered, GrowsTo, After, LastRun, Reports, Parsed, Coupled;
    next := CollectedIsRecorded(w, a, p);
    RunAtMember(w.db.runs, run);
  }

  // ---------- Runs are never lost ----------

  lemma {:induction false} DetectionKeepsRuns(m: Monitor.State, runs: seq<Run>, result: CollectionResult, newRun: int,
                                              call: Call, id: int)
    requires RunAt(runs, id).Some?
    ensures RunAt(Monitor.DetectAppRun(m, runs, result, newRun, call).1, id).Some?
  {
    hide RunAt, Touched, Ensured, Monitor.VerdictOf;
    match Monitor.VerdictOf(m, result)
    case Continue(run) => TouchedKeeps(runs, run, result.started, id);
    case Ensure(_) => EnsuredLosesNone(runs, Monitor.StartOf(result), result.started, newRun, id);
  }

  lemma {:induction false} EnsuredLosesNone(runs: seq<Run>, start: Option<int>, seenAt: int, newId: int, id: int)
    requires RunAt(runs, id).Some?
    ensures RunAt(Ensured(runs, start, seenAt, newId).0, id).Some?
  {
    hide Touched, RunStartedAt;
    if start.Some? && RunStartedAt(runs, start.value).Some? {
      TouchedKeeps(runs, RunStartedAt(runs, start.value).value.id, seenAt, id);
    } else {
      InitOfAppend(runs, Run(newId, start, seenAt, seenAt));
    }
  }

  lemma {:induction false} RunStays(w: World, a: Action, id: int)
    requires RunAt(w.db.runs, id).Some?
    ensures RunAt(After(w, a).db.runs, id).Some?
  {
    hide RunAt, Gathered, Monitor.DetectAppRun, Storable, Inserted, RowOf, SnapshotOf, HasErrorEvent, Monitor.Announced;
    if a.Poll? && Asks(w, a.now, a.calls) {
      var m := Monitor.Loaded(w.mon, w.db, a.calls.load, a.now).value;
      DetectionKeepsRuns(m, w.db.runs, a.result, a.calls.newRun, a.calls.run, id);
    }
  }

  lemma {:induction false} RunsStay(w: World, actions: seq<Action>, id: int)
    requires RunAt(w.db.runs, id).Some?
    ensures RunAt(AfterAll(w, actions).db.runs, id).Some?
  {
    hide RunAt, After;
    if actions != [] {
      RunsStay(w, Init(actions), id);
      RunStays(AfterAll(w, Init(actions)), Last(actions), id);
    }
  }

  lemma {:induction false} EndsKnown(w: World, run: int, p: Population)
    requires Ends(w, run, p)
    ensures RunAt(w.db.runs, run).Some? && !Broken(w.mon)
  {
  }

  /** Over every life of a target: two recorded polls with none between them share a run exactly if nothing but reads of
      the history and deletions lies between them, the server is the same, and no tuple was lost or dropped. */
  lemma {:induction false} RunGoesOnIff(settings: Settings, prefix: seq<Action>, a: Action, middle: seq<Action>,
                                        b: Action)
    requires PossibleRun(settings, prefix + [a] + middle + [b])
    requires Collects(Reached(settings, prefix), a) && Collects(Reached(settings, prefix + [a] + middle), b)
    requires NoneCollects(Reached(settings, prefix + [a]), middle)
    ensures
      var first, second := LastRun(Reached(settings, prefix + [a])),
          LastRun(Reached(settings, prefix + [a] + middle + [b]));
      var p := Gathered(Reached(settings, prefix).settings, a.scrape).value;
      var q := Gathered(Reached(settings, prefix + [a] + middle).settings, b.scrape).value;
      && first.Some? && second.Some?
      && (first == second <==> (forall c :: c in middle ==> Harmless(c)) && Continues(p, q))
  {
    hide Reached, PossibleRun, Ends, Broken, Harmless, After, Possible, Sound, LastRun, Gathered, NoneCollects,
         Continues, RunAt;
    var later := prefix + [a] + middle;
    LastIsPossible(settings, later, b);
    ReachedThrough(settings, prefix + [a], middle);
    LastIsPossible(settings, prefix, a);
    var w0, w1, w := Reached(settings, prefix), Reached(settings, prefix + [a]), Reached(settings, later);
    var p := Gathered(w0.settings, a.scrape).value;
    var q := Gathered(w.settings, b.scrape).value;
    var run := CollectedIsRecorded(w0, a, p);
    EndsKnown(w1, run, p);
    MiddleDecides(settings, prefix + [a], middle, run, p);
    RunsStay(w1, middle, run);
    if Ends(w, run, p) {
      EndsKnown(w, run, p);
    }
    var next := RunOfTheNext(w, b, q, run, p);
  }
}
