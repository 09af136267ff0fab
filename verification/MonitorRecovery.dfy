/** The no-poll restore rebuilds what a live monitor showed. */
module MonitorRecovery {
  import opened Common
  import opened Collection
  import opened Database
  import opened Monitor

  // ---------- Live runs ----------

  /** One polling cycle whose storage calls all work. */
  datatype Cycle = Cycle(attempt: Attempt, now: nat, newRun: int, newPoll: int)

  function CallsOf(c: Cycle): Calls {
    Calls(Works, Works, Works, Works, c.newRun, c.newPoll)
  }

  /** The monitor and the database after some cycles from an empty history. */
  function Live(cycles: seq<Cycle>): (State, Db) {
    if cycles == [] then (FRESH, EMPTY)
    else
      var (m, db) := Live(Init(cycles));
      var c := Last(cycles);
      PollStep(m, db, c.attempt, c.now, CallsOf(c))
  }

  /** The collection of a cycle can be stored, starts no earlier than the stored polls, and comes with an error event
      whenever the collector reports an error; ids are new. */
  predicate Regular(db: Db, c: Cycle) {
    var (result, err) := Settled(c.attempt, c.now);
    && Storable(result)
    && (err.Some? ==> HasErrorEvent(result.events))
    && (forall r :: r in db.rows ==> r.poll.ts <= result.started && r.poll.id < c.newPoll)
    && RunAt(db.runs, c.newRun).None?
  }

  predicate RegularRun(cycles: seq<Cycle>) {
    cycles != [] ==> RegularRun(Init(cycles)) && Regular(Live(Init(cycles)).1, Last(cycles))
  }

  // ---------- What the database says the monitor shows ----------

  function Mirror(db: Db): State {
    if db.rows == [] then FRESH
    else
      var last := Last(db.rows);
      var ok, failed := LatestOk(db.rows), LatestFailed(db.rows);
      State(
        false,
        Status(
          Some(last.finished),
          if ok.Some? then Some(ok.value.finished) else None,
          if failed.Some? then Some(failed.value.finished) else None,
          FailedSuffix(db.rows),
          if last.status == Ok then "" else last.summary,
          last.poll.id,
          if ok.Some? then ok.value.poll.id else 0),
        Some(SnapshotOf(last, db.runs)),
        if ok.Some? then Some(SnapshotOf(ok.value, db.runs)) else None,
        HealthOf(last.health, last.dbHealth, last.finished))
  }

  ghost predicate RunsKnown(db: Db) {
    forall r :: r in db.rows && r.poll.run.Some? ==> RunAt(db.runs, r.poll.run.value).Some?
  }

  ghost predicate Coupled(m: State, db: Db) {
    InTimeOrder(db.rows) && RunsKnown(db) && m == Mirror(db)
  }

  lemma {:induction false} SummaryIsNotEmpty(events: seq<Event>)
    requires HasErrorEvent(events) && forall i :: 0 <= i < |events| ==> events[i].message != ""
    ensures ErrorSummary(events) != ""
  {
    if Last(events).severity != Error {
      ErrorEventNext(Init(events), Last(events));
      assert events == Init(events) + [Last(events)];
      SummaryIsNotEmpty(Init(events));
    }
  }

  lemma {:induction false} SummaryOfClean(events: seq<Event>)
    requires !HasErrorEvent(events)
    ensures ErrorSummary(events) == ""
  {
    if events != [] {
      ErrorEventNext(Init(events), Last(events));
      assert events == Init(events) + [Last(events)];
      SummaryOfClean(Init(events));
    }
  }

  /** Adding a poll at the end keeps the books. */
  lemma {:induction false} Appended(db: Db, row: PollRow, runs: seq<Run>)
    requires InTimeOrder(db.rows) && RunsKnown(db)
    requires forall r :: r in db.rows ==> r.poll.ts <= row.poll.ts && r.poll.id < row.poll.id
    requires forall id :: RunAt(db.runs, id).Some? ==> RunAt(runs, id).Some?
    requires row.poll.run.Some? ==> RunAt(runs, row.poll.run.value).Some?
    ensures Inserted(db.rows, row) == db.rows + [row]
    ensures InTimeOrder(db.rows + [row]) && RunsKnown(Db(db.rows + [row], runs))
  {
    InsertedLast(db.rows, row);
  }

  lemma {:induction false} SnapshotHoldsRow(row: PollRow, runs: seq<Run>)
    ensures SnapshotOf(row, runs).row == row
  {
  }

  lemma {:induction false} MirrorOfFailure(db: Db, row: PollRow)
    requires row.status == Failed
    ensures Mirror(Db(db.rows + [row], db.runs)) ==
            FailedPoll(Mirror(db), row.finished, row.poll.id, row.summary, Some(SnapshotOf(row, db.runs)),
                       HealthOf(row.health, row.dbHealth, row.finished))
  {
    hide SnapshotOf;
    InitOfAppend(db.rows, row);
    assert LatestOk(db.rows + [row]) == LatestOk(db.rows) && LatestFailed(db.rows + [row]) == Some(row);
    assert FailedSuffix(db.rows + [row]) == FailedSuffix(db.rows) + 1;
  }

  lemma {:induction false} MirrorOfSuccess(db: Db, row: PollRow, runs: seq<Run>)
    requires row.status == Ok
    ensures Mirror(Db(db.rows + [row], runs)) ==
            Succeeded(Mirror(db), row.finished, row.poll.id, SnapshotOf(row, runs))
  {
    hide SnapshotOf;
    InitOfAppend(db.rows, row);
    SnapshotHoldsRow(row, runs);
    assert LatestOk(db.rows + [row]) == Some(row) && LatestFailed(db.rows + [row]) == LatestFailed(db.rows);
    assert FailedSuffix(db.rows + [row]) == 0;
  }

  /** A failed collection is stored without a run and recorded as such. */
  lemma {:induction false} FailureMirrors(db: Db, result: CollectionResult, err: Option<string>, c: Cycle)
    requires InTimeOrder(db.rows) && RunsKnown(db) && Storable(result) && HasErrorEvent(result.events)
    requires forall r :: r in db.rows ==> r.poll.ts <= result.started && r.poll.id < c.newPoll
    ensures
      var (m, after) := Concluded(Mirror(db), db, result, err, CallsOf(c));
      Coupled(m, after)
  {
    hide HasErrorEvent, InTimeOrder, SnapshotOf, ErrorSummary;
    var row := RowOf(c.newPoll, None, result);
    Appended(db, row, db.runs);
    SummaryIsNotEmpty(result.events);
    InitOfAppend(db.rows, row);
    MirrorOfFailure(db, row);
    assert Concluded(Mirror(db), db, result, err, CallsOf(c)) == Stored(Mirror(db), db, result, err, None, CallsOf(c));
    SnapshotHoldsRow(row, db.runs);
  }

  lemma {:induction false} AnnouncedIsClean(result: CollectionResult, verdict: Verdict)
    requires Storable(result) && !HasErrorEvent(result.events)
    requires verdict.Ensure? && verdict.restart.Some? ==> verdict.restart.value != ""
    ensures
      var announced := Announced(result, verdict);
      && Storable(announced) && !HasErrorEvent(announced.events)
      && announced.(events := result.events) == result
  {
    if verdict.Ensure? && verdict.restart.Some? {
      ErrorEventNext(result.events, Event(Warning, RESTART_DETECTED, "", verdict.restart.value));
    }
  }

  lemma {:induction false} RestartHasReason(m: State, result: CollectionResult)
    ensures var v := VerdictOf(m, result); v.Ensure? && v.restart.Some? ==> v.restart.value != ""
  {
    hide CoreDrops, Decreased;
  }

  /** A continued run is the latest successful poll's. */
  lemma {:induction false} ContinuesPrevious(m: State, result: CollectionResult)
    requires VerdictOf(m, result).Continue?
    ensures m.previous.Some? && m.previous.value.row.poll.run == Some(VerdictOf(m, result).run)
  {
    hide CoreDrops, Decreased;
  }

  /** A run is found or begun for every clean collection, and no known run gets lost. */
  lemma {:induction false} RunIsDetected(db: Db, result: CollectionResult, c: Cycle)
    requires RunsKnown(db) && RunAt(db.runs, c.newRun).None?
    ensures
      var (run, runs) := DetectAppRun(Mirror(db), db.runs, result, c.newRun, Works);
      && run.Success? && RunAt(runs, run.value).Some?
      && forall id :: RunAt(db.runs, id).Some? ==> RunAt(runs, id).Some?
  {
    hide RunAt, VerdictOf, Touched, Ensured;
    var m := Mirror(db);
    var (run, runs) := DetectAppRun(m, db.runs, result, c.newRun, Works);
    match VerdictOf(m, result)
    case Continue(id) =>
      ContinuesPrevious(m, result);
      LatestOkMember(db.rows);
      forall other ensures RunAt(db.runs, other).Some? ==> RunAt(runs, other).Some? {
        TouchedKeeps(db.runs, id, result.started, other);
      }
    case Ensure(_) =>
      forall other ensures RunAt(db.runs, other).Some? ==> RunAt(runs, other).Some? {
        EnsuredKeeps(db.runs, StartOf(result), result.started, c.newRun, other);
      }
      EnsuredKeeps(db.runs, StartOf(result), result.started, c.newRun, c.newRun);
  }

  lemma {:induction false} SuccessMirrors(db: Db, result: CollectionResult, c: Cycle)
    requires InTimeOrder(db.rows) && RunsKnown(db) && Storable(result) && !HasErrorEvent(result.events)
    requires forall r :: r in db.rows ==> r.poll.ts <= result.started && r.poll.id < c.newPoll
    requires RunAt(db.runs, c.newRun).None?
    ensures
      var (m, after) := Concluded(Mirror(db), db, result, None, CallsOf(c));
      Coupled(m, after)
  {
    hide HasErrorEvent, InTimeOrder, SnapshotOf, ErrorSummary, VerdictOf, DetectAppRun, RunsKnown, Storable, Announced;
    var m := Mirror(db);
    var (run, runs) := DetectAppRun(m, db.runs, result, c.newRun, Works);
    RunIsDetected(db, result, c);
    var kept := result.(processStart := StartOf(result));
    RestartHasReason(m, result);
    StorableWithStart(result, StartOf(result));
    AnnouncedIsClean(kept, VerdictOf(m, result));
    var announced := Announced(kept, VerdictOf(m, result));
    SummaryOfClean(announced.events);
    var row := RowOf(c.newPoll, Some(run.value), announced);
    assert row.poll.ts == result.started;
    Appended(db, row, runs);
    InitOfAppend(db.rows, row);
    MirrorOfSuccess(db, row, runs);
    assert Concluded(m, db, result, None, CallsOf(c)) ==
        Stored(m, Db(db.rows, runs), announced, None, Some(run.value), CallsOf(c));
    SnapshotHoldsRow(row, runs);
  }

  lemma {:induction false} StorableWithStart(result: CollectionResult, start: Option<int>)
    ensures Storable(result.(processStart := start)) <==> Storable(result)
  {
  }

  lemma {:induction false} StepMirrors(db: Db, c: Cycle)
    requires InTimeOrder(db.rows) && RunsKnown(db) && Regular(db, c)
    ensures
      var (m, after) := PollStep(Mirror(db), db, c.attempt, c.now, CallsOf(c));
      Coupled(m, after)
  {
    hide Concluded, Storable, HasErrorEvent, InTimeOrder, RunsKnown, RunAt, Settled, Coupled, SnapshotOf;
    var (result, err) := Settled(c.attempt, c.now);
    NothingToLoad(db, c.now);
    if Clean(result, err) {
      SuccessMirrors(db, result, c);
    } else {
      FailureMirrors(db, result, err, c);
    }
  }

  lemma {:induction false} NothingToLoad(db: Db, now: nat)
    ensures Loaded(Mirror(db), db, Works, now) == Success(Mirror(db)) && !Mirror(db).noPoll
  {
  }

  /** The live monitor always shows what the database says. */
  lemma {:induction false} LiveIsMirror(cycles: seq<Cycle>)
    requires RegularRun(cycles)
    ensures var (m, db) := Live(cycles); Coupled(m, db)
  {
    hide PollStep, Regular;
    if cycles != [] {
      LiveIsMirror(Init(cycles));
      StepMirrors(Live(Init(cycles)).1, Last(cycles));
    }
  }

  /** After any run without storage errors, a new monitor in no-poll mode shows the same snapshots, health, poll times
      and ids as the live one, and its failure count capped at the lookup limit. */
  lemma {:induction false} RestoreRefinesLive(cycles: seq<Cycle>)
    requires RegularRun(cycles)
    ensures
      var (live, db) := Live(cycles);
      Restored(FRESH, db) == live.(noPoll := true, status := live.status.(failures := Capped(live.status.failures)))
  {
    hide Live, SnapshotOf, InTimeOrder, RunsKnown;
    LiveIsMirror(cycles);
  }

  /** Up to the limit nothing at all is lost. */
  lemma {:induction false} RestoreIsExactWithinLimit(cycles: seq<Cycle>)
    requires RegularRun(cycles)
    ensures
      var (live, db) := Live(cycles);
      Restored(FRESH, db) == live.(noPoll := true) <==> live.status.failures <= TRAILING_LIMIT
  {
    hide Live;
    RestoreRefinesLive(cycles);
  }
}
