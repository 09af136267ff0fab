/** Every run of a Caddy target keeps the coupling between collector, monitor and database. */
module CaddyContinuity {
  import opened Common
  import opened Polls
  import opened Collection
  import opened CaddyPopulation
  import opened CaddyTotals
  import opened CaddyCollector
  import opened Database
  import opened CaddyRuns
  import Monitor
  import Retention

  // ---------- The books ----------

  lemma {:induction false} ContinuesTransitive(a: Population, b: Population, c: Population)
    requires Continues(a, b) && Continues(b, c)
    ensures Continues(a, c)
  {
  }

  lemma {:induction false} KeptWithFewer(b: Books, rows: seq<PollRow>)
    requires Kept(b) && InTimeOrder(rows) && forall r :: r in rows ==> r in b.db.rows
    ensures Kept(b.(db := b.db.(rows := rows)))
  {
    var after := b.(db := b.db.(rows := rows));
    forall r | r in rows ensures Fits(after, r) {
      assert Fits(b, r);
    }
  }

  lemma {:induction false} KeptWithRuns(b: Books, runs: seq<Run>)
    requires Kept(b) && forall id :: RunAt(b.db.runs, id).Some? ==> RunAt(runs, id).Some?
    ensures Kept(b.(db := b.db.(runs := runs)))
  {
    var after := b.(db := b.db.(runs := runs));
    forall r | r in after.db.rows ensures Fits(after, r) {
      assert Fits(b, r);
    }
  }

  lemma {:induction false} KeptLater(b: Books, clock: nat)
    requires Kept(b) && b.clock <= clock
    ensures Kept(b.(clock := clock))
  {
    var after := b.(clock := clock);
    forall r | r in after.db.rows ensures Fits(after, r) {
      assert Fits(b, r);
    }
  }

  /** Remembering the population of a poll that is not stored yet, or not at all, changes nothing. */
  lemma {:induction false} KeptWithSeen(b: Books, id: int, p: Population)
    requires Kept(b) && forall r :: r in b.db.rows ==> r.poll.id < id
    ensures Kept(b.(seen := b.seen[id := p]))
  {
    hide Carried, Complete, RunAt, Continues;
    var after := b.(seen := b.seen[id := p]);
    forall r | r in after.db.rows ensures Fits(after, r) {
      assert Fits(b, r);
    }
    forall x, y | x in after.db.rows && y in after.db.rows ensures Successive(after.seen, x, y) {
      assert Successive(b.seen, x, y);
    }
  }

  lemma {:induction false} AppendInOrder(rows: seq<PollRow>, row: PollRow)
    requires InTimeOrder(rows)
    requires forall r :: r in rows ==> r.poll.ts <= row.poll.ts && r.poll.id < row.poll.id
    ensures Inserted(rows, row) == rows + [row] && InTimeOrder(rows + [row])
    ensures forall r :: r in rows ==> Before(r.poll, row.poll)
  {
    InsertedLast(rows, row);
  }

  lemma {:induction false} KeptWithFailure(b: Books, row: PollRow)
    requires Kept(b) && row.poll.run.None? && row.poll.samples == map[] && row.poll.ts == b.clock
    requires forall r :: r in b.db.rows ==> r.poll.id < row.poll.id
    ensures Kept(b.(db := b.db.(rows := Inserted(b.db.rows, row))))
  {
    hide Carried, Complete, RunAt, Continues;
    forall r | r in b.db.rows ensures r.poll.ts <= row.poll.ts {
      assert Fits(b, r);
    }
    AppendInOrder(b.db.rows, row);
    var after := b.(db := b.db.(rows := b.db.rows + [row]));
    forall r | r in after.db.rows ensures Fits(after, r) {
      assert r == row || Fits(b, r);
    }
    forall x, y | x in after.db.rows && y in after.db.rows ensures Successive(after.seen, x, y) {
      if x != row && y != row {
        assert Successive(b.seen, x, y);
      }
    }
  }

  /** A poll of a run that can take its population. */
  lemma {:induction false} KeptWithSuccess(b: Books, row: PollRow, run: int, p: Population)
    requires Kept(b) && row.poll.run == Some(run) && row.poll.ts == b.clock && Takes(b, run, p)
    requires row.poll.id in b.seen && b.seen[row.poll.id] == p
    requires Carried(row.poll.samples, p.tuples) && Complete(p, b.printable) && RunAt(b.db.runs, run).Some?
    requires forall r :: r in b.db.rows ==> r.poll.id < row.poll.id
    ensures
      var after := b.(db := b.db.(rows := Inserted(b.db.rows, row)));
      Kept(after) && Takes(after, run, p) && after.db.rows != [] && Last(after.db.rows) == row
  {
    hide Carried, Complete, GrowsTo;
    forall r | r in b.db.rows ensures r.poll.ts <= row.poll.ts {
      assert Fits(b, r);
    }
    AppendInOrder(b.db.rows, row);
    var after := b.(db := b.db.(rows := b.db.rows + [row]));
    forall r | r in after.db.rows ensures Fits(after, r) {
      assert r == row || Fits(b, r);
    }
    forall x, y | x in after.db.rows && y in after.db.rows ensures Successive(after.seen, x, y) {
      if x != row && y != row {
        assert Successive(b.seen, x, y);
      }
    }
    ContinuesItself(p);
  }

  lemma {:induction false} ContinuesItself(p: Population)
    ensures Continues(p, p)
  {
  }

  lemma {:induction false} TakesAfterRuns(b: Books, runs: seq<Run>, run: int, p: Population)
    requires Takes(b, run, p)
    ensures Takes(b.(db := b.db.(runs := runs)), run, p)
  {
  }

  // ---------- The run of a successful collection ----------

  /** A collection that broke nothing carries the run on; after a break, a failure or a restart a new run begins, above
      all stored ones. */
  lemma {:induction false} VerdictTakes(w: World, result: CollectionResult, p: Population, newRun: int)
    requires Sound(w) && !w.mon.noPoll && result.source == CADDY_SOURCE
    requires result.continuityBreak <==> Breaks(w.memory, p)
    requires forall r :: r in w.db.runs ==> r.id < newRun
    ensures Monitor.VerdictOf(w.mon, result).Ensure? ==> Takes(BooksOf(w), newRun, p)
    ensures Monitor.VerdictOf(w.mon, result).Continue? ==> Takes(BooksOf(w), Monitor.VerdictOf(w.mon, result).run, p)
  {
    hide GrowsTo, Carried, Complete;
    var b := BooksOf(w);
    if Monitor.VerdictOf(w.mon, result).Ensure? {
      forall r | r in b.db.rows && r.poll.run.Some? ensures r.poll.run.value < newRun {
        assert Fits(b, r);
        RunAtMember(b.db.runs, r.poll.run.value);
      }
    } else {
      var run := Monitor.VerdictOf(w.mon, result).run;
      assert Unbroken(w.mon) && w.mon.previous.value.row.poll.run == Some(run);
      var last := Population(w.memory.server, w.memory.previous.value);
      assert Continues(last, p);
      forall r | r in b.db.rows && r.poll.run.Some? && r.poll.run.value == run && r.poll.id in b.seen
        ensures Continues(b.seen[r.poll.id], p)
      {
        ContinuesTransitive(b.seen[r.poll.id], last, p);
      }
    }
  }

  /** The detected run exists, can take the population, and no known run is lost, even if the call fails. */
  lemma {:induction false} DetectionTakes(w: World, result: CollectionResult, p: Population, calls: Monitor.Calls)
    requires Sound(w) && !w.mon.noPoll && result.source == CADDY_SOURCE
    requires result.continuityBreak <==> Breaks(w.memory, p)
    requires forall r :: r in w.db.runs ==> r.id < calls.newRun
    ensures
      var (run, runs) := Monitor.DetectAppRun(w.mon, w.db.runs, result, calls.newRun, calls.run);
      && (forall id :: RunAt(w.db.runs, id).Some? ==> RunAt(runs, id).Some?)
      && (run.Success? ==> RunAt(runs, run.value).Some? && Takes(BooksOf(w), run.value, p))
  {
    hide RunAt, Touched, Ensured, Monitor.VerdictOf, Sound, Breaks, Takes;
    VerdictTakes(w, result, p, calls.newRun);
    RunAtMember(w.db.runs, calls.newRun);
    var (run, runs) := Monitor.DetectAppRun(w.mon, w.db.runs, result, calls.newRun, calls.run);
    assert Monitor.StartOf(result).None?;
    match Monitor.VerdictOf(w.mon, result)
    case Continue(id) =>
      forall other ensures RunAt(w.db.runs, other).Some? ==> RunAt(runs, other).Some? {
        TouchedKeeps(w.db.runs, id, result.started, other);
      }
    case Ensure(_) =>
      forall other ensures RunAt(w.db.runs, other).Some? ==> RunAt(runs, other).Some? {
        EnsuredKeeps(w.db.runs, None, result.started, calls.newRun, other);
      }
      EnsuredKeeps(w.db.runs, None, result.started, calls.newRun, calls.newRun);
      EnsuredIsNew(w.db.runs, result.started, calls.newRun);
  }

  lemma {:induction false} EnsuredIsNew(runs: seq<Run>, seenAt: int, newId: int)
    ensures Ensured(runs, None, seenAt, newId).1 == newId
  {
  }

  // ---------- One polling cycle ----------

  predicate FailedFrom(m: Monitor.State, m': Monitor.State) {
    && m'.noPoll == m.noPoll && m'.previous == m.previous && m'.status.failures > 0
    && m'.status.lastSuccessAt == m.status.lastSuccessAt
  }

  /** Saving stores the row or not; the monitor has failed unless the row is stored and its collection was clean. */
  lemma {:induction false} StoredShape(m: Monitor.State, db: Db, result: CollectionResult, err: Option<string>,
                                       run: Option<int>, calls: Monitor.Calls)
    ensures
      var (m', db') := Monitor.Stored(m, db, result, err, run, calls);
      var rows := Inserted(db.rows, RowOf(calls.newPoll, run, result));
      && db'.runs == db.runs
      && (db'.rows == db.rows || db'.rows == rows)
      && (|| FailedFrom(m, m')
          || (&& Monitor.Clean(result, err) && db'.rows == rows != []
              && m' == Monitor.Succeeded(m, result.finished, calls.newPoll, SnapshotOf(Last(rows), db.runs))))
  {
    hide Storable, RowOf, Inserted, SnapshotOf, HasErrorEvent;
  }

  lemma {:induction false} FailedIsCoupled(memory: Memory, memory': Memory, m: Monitor.State, m': Monitor.State,
                                           b: Books, b': Books)
    requires Coupled(memory, m, b) && FailedFrom(m, m')
    ensures Coupled(memory', m', b')
  {
  }

  /** A failed collection is stored without a run, if at all. */
  lemma {:induction false} FailureKeeps(w: World, result: CollectionResult, err: Option<string>, calls: Monitor.Calls)
    requires Sound(w) && !Monitor.Clean(result, err) && result.samples == map[] && result.started == w.clock
    requires forall r :: r in w.db.rows ==> r.poll.id < calls.newPoll
    ensures
      var (m, db) := Monitor.Concluded(w.mon, w.db, result, err, calls);
      Sound(w.(mon := m, db := db, memory := FORGOTTEN))
  {
    hide Kept, Coupled, Inserted, HasErrorEvent;
    var b := BooksOf(w);
    var (m, db) := Monitor.Stored(w.mon, w.db, result, err, None, calls);
    StoredShape(w.mon, w.db, result, err, None, calls);
    var row := RowOf(calls.newPoll, None, result);
    KeptWithFailure(b, row);
    FailedIsCoupled(w.memory, FORGOTTEN, w.mon, m, b, b.(db := db));
  }

  /** A successful collection is stored under a run that takes it, if at all. */
  lemma {:induction false} SuccessKeeps(w: World, result: CollectionResult, p: Population, calls: Monitor.Calls)
    requires Sound(w) && !w.mon.noPoll && result.started == w.clock
    requires Reports(result, None, Times(result.started, result.finished), Some(p), w.memory)
    requires Complete(p, w.settings.selector.printable)
    requires calls.newPoll in w.seen && w.seen[calls.newPoll] == p
    requires forall r :: r in w.db.runs ==> r.id < calls.newRun
    requires forall r :: r in w.db.rows ==> r.poll.id < calls.newPoll
    ensures
      var (m, db) := Monitor.Concluded(w.mon, w.db, result, None, calls);
      Sound(w.(mon := m, db := db, memory := Memory(Some(p.tuples), p.server)))
  {
    hide Kept, Takes, Inserted, Complete, Carried, RunAt, Monitor.DetectAppRun, Monitor.VerdictOf, Breaks, Coupled;
    var b := BooksOf(w);
    var (run, runs) := Monitor.DetectAppRun(w.mon, w.db.runs, result, calls.newRun, calls.run);
    var memory := Memory(Some(p.tuples), p.server);
    DetectionTakes(w, result, p, calls);
    KeptWithRuns(b, runs);
    var b1 := b.(db := b.db.(runs := runs));
    var (m, db) := Monitor.Concluded(w.mon, w.db, result, None, calls);
    NoErrorEvents(result);
    if run.Failure? {
      assert FailedFrom(w.mon, m) && db == b1.db;
      FailedIsCoupled(w.memory, memory, w.mon, m, b, b1);
    } else {
      TakesAfterRuns(b, runs, run.value, p);
      NothingAnnounced(w.mon, result);
      assert (m, db) == Monitor.Stored(w.mon, b1.db, result, None, Some(run.value), calls);
      StoredShape(w.mon, b1.db, result, None, Some(run.value), calls);
      var row := RowOf(calls.newPoll, Some(run.value), result);
      KeptWithSuccess(b1, row, run.value, p);
      var b2 := b1.(db := b1.db.(rows := Inserted(b1.db.rows, row)));
      if FailedFrom(w.mon, m) {
        FailedIsCoupled(w.memory, memory, w.mon, m, b, BooksOf(w).(db := db));
      } else {
        SucceededIsCoupled(w.mon, result, calls.newPoll, row, b2, run.value, p);
      }
    }
  }

  lemma {:induction false} NoErrorEvents(result: CollectionResult)
    requires result.events == []
    ensures Monitor.Clean(result, None)
  {
  }

  /** A Caddy run is a counter boundary, never an announced restart. */
  lemma {:induction false} NothingAnnounced(m: Monitor.State, result: CollectionResult)
    requires result.source == CADDY_SOURCE && result.processStart.None?
    ensures Monitor.Announced(result.(processStart := Monitor.StartOf(result)), Monitor.VerdictOf(m, result)) == result
  {
  }

  lemma {:induction false} SucceededIsCoupled(m: Monitor.State, result: CollectionResult, id: int, row: PollRow,
                                              b: Books, run: int, p: Population)
    requires row.poll.run == Some(run) && Takes(b, run, p) && RunAt(b.db.runs, run).Some?
    ensures Coupled(Memory(Some(p.tuples), p.server),
                    Monitor.Succeeded(m, result.finished, id, SnapshotOf(row, b.db.runs)), b)
  {
    hide Takes;
  }

  lemma {:induction false} LoadingKeepsCoupling(w: World, load: Call, now: nat)
    requires Sound(w) && Monitor.Loaded(w.mon, w.db, load, now).Success? && !w.mon.noPoll
    ensures Sound(w.(mon := Monitor.Loaded(w.mon, w.db, load, now).value))
    ensures !Monitor.Loaded(w.mon, w.db, load, now).value.noPoll
  {
    hide Kept, Takes;
  }

  lemma {:induction false} ClockKeepsSound(w: World, clock: nat, id: int, p: Population)
    requires Sound(w) && w.clock <= clock
    ensures Sound(w.(clock := clock))
    ensures (forall r :: r in w.db.rows ==> r.poll.id < id) ==> Sound(w.(clock := clock, seen := w.seen[id := p]))
  {
    hide Kept;
    var b := BooksOf(w);
    KeptLater(b, clock);
    if forall r :: r in w.db.rows ==> r.poll.id < id {
      KeptWithSeen(b.(clock := clock), id, p);
    }
  }

  lemma {:induction false} PollKeeps(w: World, a: Action)
    requires Sound(w) && a.Poll? && Possible(w, a)
    ensures Sound(After(w, a))
  {
    hide Sound, Kept, Coupled, Takes, Monitor.Concluded, Reports, Gathered, Parsed, Complete;
    var gathered := Gathered(w.settings, a.scrape);
    if Asks(w, a.now, a.calls) {
      LoadingKeepsCoupling(w, a.calls.load, a.now);
      var w1 := w.(mon := Monitor.Loaded(w.mon, w.db, a.calls.load, a.now).value);
      CleanExactlyIfGathered(w, a);
      if gathered.None? {
        ClockKeepsSound(w1, a.result.started, 0, NOBODY);
        FailureKeeps(w1.(clock := a.result.started), a.result, ErrorText(a.err), a.calls);
      } else {
        var p := gathered.value;
        ClockKeepsSound(w1, a.result.started, a.calls.newPoll, p);
        var w2 := w1.(clock := a.result.started, seen := w1.seen[a.calls.newPoll := p]);
        SuccessKeeps(w2, a.result, p, a.calls);
      }
    } else {
      UnaskedKeeps(w, a);
    }
  }

  lemma {:induction false} CleanExactlyIfGathered(w: World, a: Action)
    requires a.Poll? && Possible(w, a)
    ensures Monitor.Clean(a.result, ErrorText(a.err)) <==> Gathered(w.settings, a.scrape).Some?
    ensures Gathered(w.settings, a.scrape).None? ==> a.result.samples == map[]
    ensures Gathered(w.settings, a.scrape).Some? ==>
              a.err.None? && Complete(Gathered(w.settings, a.scrape).value, w.settings.selector.printable)
  {
    hide Carried, Observed, Breaks;
    if Gathered(w.settings, a.scrape).Some? {
      ObservedIsGenuine(a.scrape.samples, w.settings.selector);
    }
  }

  lemma {:induction false} UnaskedKeeps(w: World, a: Action)
    requires Sound(w) && a.Poll? && !Asks(w, a.now, a.calls)
    ensures Sound(AfterPoll(w, a))
  {
    hide Kept, Takes, Monitor.Concluded, Gathered;
  }

  // ---------- The other actions ----------

  lemma {:induction false} RowsFromMatches(rows: seq<PollRow>, cutoff: int)
    ensures PollsOf(RowsFrom(rows, cutoff)) == Retention.From(PollsOf(rows), cutoff)
    ensures forall r :: r in RowsFrom(rows, cutoff) ==> r in rows
  {
    if rows != [] {
      RowsFromMatches(Init(rows), cutoff);
      assert PollsOf(rows) == PollsOf(Init(rows)) + [Last(rows).poll];
      assert rows == Init(rows) + [Last(rows)];
      if cutoff <= Last(rows).poll.ts {
        assert PollsOf(RowsFrom(rows, cutoff)) == PollsOf(RowsFrom(Init(rows), cutoff)) + [Last(rows).poll];
      }
    }
  }

  lemma {:induction false} DeletionKeeps(w: World, cutoff: int)
    requires Sound(w)
    ensures Sound(After(w, DeleteBefore(cutoff)))
  {
    hide Kept;
    RowsFromMatches(w.db.rows, cutoff);
    assert InTimeOrder(w.db.rows) by { KeptInOrder(BooksOf(w)); }
    Retention.FromOrdered(PollsOf(w.db.rows), cutoff);
    KeptWithFewer(BooksOf(w), RowsFrom(w.db.rows, cutoff));
  }

  lemma {:induction false} KeptInOrder(b: Books)
    requires Kept(b)
    ensures InTimeOrder(b.db.rows)
  {
  }

  lemma {:induction false} RestartKeeps(w: World, settings: Settings)
    requires Sound(w) && settings.selector.printable == w.settings.selector.printable
    ensures Sound(After(w, Restart(settings)))
  {
    hide Kept, Takes;
  }

  lemma {:induction false} NoPollKeeps(w: World, history: Monitor.Reads)
    requires Sound(w)
    ensures Sound(After(w, EnableNoPoll(history)))
  {
    hide Kept, Takes;
  }

  lemma {:induction false} LoadHistoryKeeps(w: World, load: Call, now: nat)
    requires Sound(w)
    ensures Sound(After(w, LoadHistory(load, now)))
  {
    hide Kept, Takes;
  }

  /** Every run keeps the invariant. */
  lemma {:induction false} RunsAreSound(settings: Settings, actions: seq<Action>)
    requires PossibleRun(settings, actions)
    ensures Sound(Reached(settings, actions))
  {
    hide Sound, Possible, After;
    if actions == [] {
      BeginsSound(settings);
    } else {
      var w, a := Reached(settings, Init(actions)), Last(actions);
      RunsAreSound(settings, Init(actions));
      match a
      case Poll(_, _, _, _, _) => PollKeeps(w, a);
      case LoadHistory(load, now) => LoadHistoryKeeps(w, load, now);
      case Restart(next) => RestartIsPossible(w, next); RestartKeeps(w, next);
      case EnableNoPoll(history) => NoPollKeeps(w, history);
      case DeleteBefore(cutoff) => DeletionKeeps(w, cutoff);
    }
  }

  lemma {:induction false} BeginsSound(settings: Settings)
    ensures Sound(Begin(settings))
  {
  }

  lemma {:induction false} RestartIsPossible(w: World, settings: Settings)
    requires Possible(w, Restart(settings))
    ensures settings.selector.printable == w.settings.selector.printable
  {
  }

  /** Over every life of a target: two stored polls of the same run have the same server, and every tuple of the earlier
      is in the later with a count and a duration that did not drop. */
  lemma {:induction false} SameRunOnlyGrows(settings: Settings, actions: seq<Action>, x: PollRow, y: PollRow)
    requires PossibleRun(settings, actions)
    requires x in Reached(settings, actions).db.rows && y in Reached(settings, actions).db.rows
    requires x.poll.run.Some? && x.poll.run == y.poll.run && Before(x.poll, y.poll)
    ensures
      var seen := Reached(settings, actions).seen;
      && x.poll.id in seen && y.poll.id in seen
      && Carried(x.poll.samples, seen[x.poll.id].tuples) && Carried(y.poll.samples, seen[y.poll.id].tuples)
      && Continues(seen[x.poll.id], seen[y.poll.id])
  {
    hide Reached, PossibleRun, Carried, Complete, Continues;
    RunsAreSound(settings, actions);
    var w := Reached(settings, actions);
    assert Fits(BooksOf(w), x) && Fits(BooksOf(w), y) && Successive(w.seen, x, y);
  }
}
