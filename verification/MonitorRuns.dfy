/** App runs over the whole life of any target: the run of a poll and the process start it reported. */
module MonitorRuns {
  import opened Common
  import opened Polls
  import opened Collection
  import opened Database
  import opened Monitor
  import CaddyCollector
  import MonitorRecovery

  // ---------- The machine ----------

  /** A run given to a poll, with the process start that its collection reported. */
  datatype Assignment = Assignment(poll: int, run: int, start: Option<int>)

  datatype World = World(mon: State, db: Db, log: seq<Assignment>)

  datatype Action =
    | Cycle(attempt: Attempt, now: nat, calls: Calls)
    | LoadHistory(load: Call, now: nat)
    | Restart
    | EnableNoPoll(history: Reads)

  const BEGIN := World(FRESH, EMPTY, [])

  /** Run ids are new; attempts, clocks and storage failures are arbitrary. */
  predicate Possible(w: World, a: Action) {
    a.Cycle? ==> RunAt(w.db.runs, a.calls.newRun).None?
  }

  /** The run that a cycle gives to its poll, if it gets that far. */
  function Assigned(w: World, a: Action): Option<Assignment>
    requires a.Cycle?
  {
    if w.mon.noPoll then None
    else
      match Loaded(w.mon, w.db, a.calls.load, a.now)
      case Failure(_) => None
      case Success(loaded) =>
        var (result, err) := Settled(a.attempt, a.now);
        if !Clean(result, err) then None
        else
          var (run, _) := DetectAppRun(loaded, w.db.runs, result, a.calls.newRun, a.calls.run);
          if run.Success? then Some(Assignment(a.calls.newPoll, run.value, StartOf(result))) else None
  }

  function After(w: World, a: Action): World {
    match a
    case Cycle(attempt, now, calls) =>
      var (mon, db) := PollStep(w.mon, w.db, attempt, now, calls);
      World(mon, db, if Assigned(w, a).Some? then w.log + [Assigned(w, a).value] else w.log)
    case LoadHistory(load, now) =>
      var loaded := Loaded(w.mon, w.db, load, now);
      if loaded.Success? then w.(mon := loaded.value) else w
    case Restart => w.(mon := FRESH)
    case EnableNoPoll(history) => w.(mon := Enabled(w.mon, w.db, history))
  }

  function Reached(actions: seq<Action>): World {
    if actions == [] then BEGIN else After(Reached(Init(actions)), Last(actions))
  }

  predicate PossibleRun(actions: seq<Action>) {
    actions != [] ==> PossibleRun(Init(actions)) && Possible(Reached(Init(actions)), Last(actions))
  }

  // ---------- The runs table ----------

  /** Primary keys, and the unique start times of the schema. */
  ghost predicate Distinct(runs: seq<Run>) {
    && (forall i, j :: 0 <= i < j < |runs| ==> runs[i].id != runs[j].id)
    && (forall i, j :: 0 <= i < j < |runs| && runs[i].start.Some? ==> runs[i].start != runs[j].start)
  }

  function KnownStart(runs: seq<Run>, id: int): Option<int> {
    if RunAt(runs, id).Some? then RunAt(runs, id).value.start else None
  }

  lemma {:induction false} RunAtIndex(runs: seq<Run>, i: nat)
    requires Distinct(runs) && i < |runs|
    ensures RunAt(runs, runs[i].id) == Some(runs[i])
  {
    if i < |runs| - 1 {
      RunAtIndex(Init(runs), i);
    }
  }

  /** A start time names one run. */
  lemma {:induction false} StartNamesRun(runs: seq<Run>, a: int, b: int)
    requires Distinct(runs) && RunAt(runs, a).Some? && RunAt(runs, b).Some?
    requires KnownStart(runs, a).Some? && KnownStart(runs, a) == KnownStart(runs, b)
    ensures a == b
  {
    RunAtMember(runs, a);
    RunAtMember(runs, b);
    var i :| 0 <= i < |runs| && runs[i] == RunAt(runs, a).value;
    var j :| 0 <= j < |runs| && runs[j] == RunAt(runs, b).value;
    assert i < j || j < i || i == j;
  }

  lemma {:induction false} TouchedFields(runs: seq<Run>, id: int, seenAt: int)
    ensures
      var after := Touched(runs, id, seenAt);
      |after| == |runs| && forall i :: 0 <= i < |runs| ==> after[i].id == runs[i].id && after[i].start == runs[i].start
  {
    if runs != [] {
      TouchedFields(Init(runs), id, seenAt);
    }
  }

  lemma {:induction false} TouchedIsDistinct(runs: seq<Run>, id: int, seenAt: int)
    requires Distinct(runs)
    ensures Distinct(Touched(runs, id, seenAt))
  {
    TouchedFields(runs, id, seenAt);
  }

  lemma {:induction false} NoRunStarted(runs: seq<Run>, start: int)
    requires RunStartedAt(runs, start).None?
    ensures forall r :: r in runs ==> r.start != Some(start)
  {
    if runs != [] {
      NoRunStarted(Init(runs), start);
      assert runs == Init(runs) + [Last(runs)];
    }
  }

  lemma {:induction false} FoundIsDistinct(runs: seq<Run>, start: int, seenAt: int)
    requires Distinct(runs) && RunStartedAt(runs, start).Some?
    ensures
      var id := RunStartedAt(runs, start).value.id;
      var after := Touched(runs, id, seenAt);
      Distinct(after) && RunAt(after, id).Some? && KnownStart(after, id) == Some(start)
  {
    hide Distinct, RunAt, Touched, RunStartedAt;
    var found := RunStartedAt(runs, start).value;
    RunStartedAtMember(runs, start);
    var i :| 0 <= i < |runs| && runs[i] == found;
    RunAtIndex(runs, i);
    TouchedIsDistinct(runs, found.id, seenAt);
    TouchedKeeps(runs, found.id, seenAt, found.id);
  }

  lemma {:induction false} AppendedIsDistinct(runs: seq<Run>, run: Run)
    requires Distinct(runs) && (forall r :: r in runs ==> r.id != run.id)
    requires run.start.Some? ==> forall r :: r in runs ==> r.start != run.start
    ensures Distinct(runs + [run])
  {
    var after := runs + [run];
    forall i, j | 0 <= i < j < |after|
      ensures after[i].id != after[j].id && (after[i].start.Some? ==> after[i].start != after[j].start)
    {
      assert i < |runs| && after[i] == runs[i] && runs[i] in runs;
    }
  }

  lemma {:induction false} EnsuredIsDistinct(runs: seq<Run>, start: Option<int>, seenAt: int, newId: int)
    requires Distinct(runs) && RunAt(runs, newId).None?
    ensures Distinct(Ensured(runs, start, seenAt, newId).0)
    ensures
      var (after, id) := Ensured(runs, start, seenAt, newId);
      RunAt(after, id).Some? && KnownStart(after, id) == start
  {
    hide Distinct, Touched, RunStartedAt;
    RunAtMember(runs, newId);
    if start.Some? && RunStartedAt(runs, start.value).Some? {
      FoundIsDistinct(runs, start.value, seenAt);
    } else {
      if start.Some? {
        NoRunStarted(runs, start.value);
      }
      AppendedIsDistinct(runs, Run(newId, start, seenAt, seenAt));
      InitOfAppend(runs, Run(newId, start, seenAt, seenAt));
    }
  }

  /** Known runs stay known with the same start. */
  ghost predicate Extends(before: seq<Run>, after: seq<Run>) {
    forall id :: RunAt(before, id).Some? ==> RunAt(after, id).Some? && KnownStart(after, id) == KnownStart(before, id)
  }

  lemma {:induction false} TouchedExtends(runs: seq<Run>, id: int, seenAt: int)
    ensures Extends(runs, Touched(runs, id, seenAt))
  {
    forall other | RunAt(runs, other).Some?
      ensures RunAt(Touched(runs, id, seenAt), other).Some?
      ensures KnownStart(Touched(runs, id, seenAt), other) == KnownStart(runs, other)
    {
      TouchedKeeps(runs, id, seenAt, other);
    }
  }

  lemma {:induction false} EnsuredExtends(runs: seq<Run>, start: Option<int>, seenAt: int, newId: int)
    requires RunAt(runs, newId).None?
    ensures Extends(runs, Ensured(runs, start, seenAt, newId).0)
  {
    var after := Ensured(runs, start, seenAt, newId).0;
    forall other | RunAt(runs, other).Some?
      ensures RunAt(after, other).Some? && KnownStart(after, other) == KnownStart(runs, other)
    {
      EnsuredKeeps(runs, start, seenAt, newId, other);
    }
  }

  // ---------- The invariant ----------

  /** A snapshot's process start is that of its run. */
  predicate Faithful(s: Option<Snapshot>, runs: seq<Run>) {
    s.Some? && s.value.row.poll.run.Some? ==>
      RunAt(runs, s.value.row.poll.run.value).Some?
      && s.value.processStart == KnownStart(runs, s.value.row.poll.run.value)
  }

  /** A poll that reported a process start is in the run of that start. */
  predicate Fits(a: Assignment, runs: seq<Run>) {
    RunAt(runs, a.run).Some? && (a.start.Some? ==> KnownStart(runs, a.run) == a.start)
  }

  ghost predicate RowsKnown(db: Db) {
    forall r :: r in db.rows && r.poll.run.Some? ==> RunAt(db.runs, r.poll.run.value).Some?
  }

  ghost predicate Sound(w: World) {
    && Distinct(w.db.runs) && RowsKnown(w.db) && Faithful(w.mon.previous, w.db.runs)
    && forall a :: a in w.log ==> Fits(a, w.db.runs)
  }

  lemma {:induction false} SnapshotIsFaithful(row: PollRow, db: Db)
    requires RowsKnown(db) && row in db.rows
    ensures Faithful(Some(SnapshotOf(row, db.runs)), db.runs)
  {
  }

  lemma {:induction false} InsertedMembers(rows: seq<PollRow>, row: PollRow)
    ensures forall r :: r in Inserted(rows, row) <==> r in rows || r == row
  {
    if rows != [] && !Before(Last(rows).poll, row.poll) {
      InsertedMembers(Init(rows), row);
      assert rows == Init(rows) + [Last(rows)];
    }
  }

  lemma {:induction false} SoundAfterRuns(w: World, runs: seq<Run>)
    requires Sound(w) && Distinct(runs) && Extends(w.db.runs, runs)
    ensures Sound(w.(db := w.db.(runs := runs)))
  {
    hide Distinct;
  }

  /** The detected run is known and has the reported start, whatever the verdict was. */
  lemma {:induction false} DetectedFits(m: State, runs: seq<Run>, result: CollectionResult, poll: int, newId: int,
                                        call: Call)
    requires Distinct(runs) && Faithful(m.previous, runs) && RunAt(runs, newId).None?
    ensures
      var (run, after) := DetectAppRun(m, runs, result, newId, call);
      && Distinct(after) && Extends(runs, after)
      && (run.Success? ==> Fits(Assignment(poll, run.value, StartOf(result)), after))
  {
    hide Distinct, RunAt, Touched, Ensured, Decreased, CoreDrops, VerdictOf, Extends;
    match VerdictOf(m, result)
    case Continue(id) =>
      ContinuedStart(m, runs, result);
      TouchedIsDistinct(runs, id, result.started);
      TouchedExtends(runs, id, result.started);
      ItselfExtends(runs);
      TouchedKeeps(runs, id, result.started, id);
    case Ensure(_) =>
      EnsuredIsDistinct(runs, StartOf(result), result.started, newId);
      EnsuredExtends(runs, StartOf(result), result.started, newId);
      ItselfExtends(runs);
  }

  lemma {:induction false} ItselfExtends(runs: seq<Run>)
    ensures Extends(runs, runs)
  {
  }

  /** A continued run has the start that the collection reports, if it reports one. */
  lemma {:induction false} ContinuedStart(m: State, runs: seq<Run>, result: CollectionResult)
    requires Faithful(m.previous, runs) && VerdictOf(m, result).Continue?
    ensures
      var id := VerdictOf(m, result).run;
      RunAt(runs, id).Some? && (StartOf(result).Some? ==> KnownStart(runs, id) == StartOf(result))
  {
    hide RunAt, KnownStart, Decreased, CoreDrops;
  }

  lemma {:induction false} StoredIsSound(w: World, result: CollectionResult, err: Option<string>, run: Option<int>,
                                         calls: Calls)
    requires Sound(w) && (run.Some? ==> RunAt(w.db.runs, run.value).Some?)
    ensures
      var (m, db) := Stored(w.mon, w.db, result, err, run, calls);
      Sound(w.(mon := m, db := db))
  {
    hide Storable, SnapshotOf, Distinct, Faithful, RunAt, Inserted, HasErrorEvent, ErrorSummary;
    var row := RowOf(calls.newPoll, run, result);
    var db := Db(Inserted(w.db.rows, row), w.db.runs);
    InsertedMembers(w.db.rows, row);
    assert RowsKnown(db);
    if db.rows != [] {
      LastIsMember(db.rows);
      SnapshotIsFaithful(Last(db.rows), db);
    }
    if w.db.rows != [] {
      LastIsMember(w.db.rows);
      SnapshotIsFaithful(Last(w.db.rows), w.db);
    }
  }

  lemma {:induction false} LoadedIsSound(w: World, load: Call, now: nat)
    requires Sound(w)
    ensures match Loaded(w.mon, w.db, load, now)
            case Success(m) => Sound(w.(mon := m))
            case Failure(m) => Sound(w.(mon := m))
  {
    hide Distinct, SnapshotOf, Faithful;
    LatestOkMember(w.db.rows);
    if LatestOk(w.db.rows).Some? {
      SnapshotIsFaithful(LatestOk(w.db.rows).value, w.db);
    }
  }

  lemma {:induction false} LogGrows(w: World, a: Assignment)
    requires Sound(w) && Fits(a, w.db.runs)
    ensures Sound(w.(log := w.log + [a]))
  {
    hide Distinct, Faithful, Fits;
  }

  lemma {:induction false} CycleIsSound(w: World, a: Action)
    requires Sound(w) && a.Cycle? && Possible(w, a)
    ensures Sound(After(w, a))
  {
    hide Sound, Stored, DetectAppRun, Loaded, Settled, RunAt, Fits, Clean;
    if !w.mon.noPoll {
      LoadedIsSound(w, a.calls.load, a.now);
      var loaded := Loaded(w.mon, w.db, a.calls.load, a.now);
      if loaded.Success? {
        var (result, err) := Settled(a.attempt, a.now);
        var w1 := w.(mon := loaded.value);
        if !Clean(result, err) {
          StoredIsSound(w1, result, err, None, a.calls);
        } else {
          CleanCycleIsSound(w1, result, err, a.calls);
          var (m, db) := Concluded(w1.mon, w.db, result, err, a.calls);
          assert PollStep(w.mon, w.db, a.attempt, a.now, a.calls) == (m, db);
          var (run, runs) := DetectAppRun(w1.mon, w.db.runs, result, a.calls.newRun, a.calls.run);
          if run.Success? {
            assert Assigned(w, a) == Some(Assignment(a.calls.newPoll, run.value, StartOf(result)));
          } else {
            assert Assigned(w, a) == None;
          }
        }
      }
    }
  }

  lemma {:induction false} CleanCycleIsSound(w: World, result: CollectionResult, err: Option<string>, calls: Calls)
    requires Sound(w) && Clean(result, err) && RunAt(w.db.runs, calls.newRun).None?
    ensures
      var (m, db) := Concluded(w.mon, w.db, result, err, calls);
      var (run, _) := DetectAppRun(w.mon, w.db.runs, result, calls.newRun, calls.run);
      && (run.Failure? ==> Sound(w.(mon := m, db := db)))
      && (run.Success? ==>
            Sound(World(m, db, w.log + [Assignment(calls.newPoll, run.value, StartOf(result))])))
  {
    hide Stored, DetectAppRun, RunAt, Distinct, Clean, Extends, VerdictOf, RowsKnown;
    var (run, runs) := DetectAppRun(w.mon, w.db.runs, result, calls.newRun, calls.run);
    DetectedFits(w.mon, w.db.runs, result, calls.newPoll, calls.newRun, calls.run);
    SoundAfterRuns(w, runs);
    var w1 := w.(db := w.db.(runs := runs));
    if run.Success? {
      var a := Assignment(calls.newPoll, run.value, StartOf(result));
      LogGrows(w1, a);
      var kept := result.(processStart := StartOf(result));
      StoredIsSound(w1.(log := w1.log + [a]), Announced(kept, VerdictOf(w.mon, result)), err, Some(run.value), calls);
    }
  }

  lemma {:induction false} RestoreIsSound(w: World)
    requires Sound(w)
    ensures Sound(w.(mon := Restored(w.mon, w.db)))
  {
    hide Distinct, SnapshotOf, Faithful, LatestFailed, FailedSuffix;
    LatestOkMember(w.db.rows);
    if LatestOk(w.db.rows).Some? {
      SnapshotIsFaithful(LatestOk(w.db.rows).value, w.db);
    }
  }

  lemma {:induction false} RunsAreSound(actions: seq<Action>)
    requires PossibleRun(actions)
    ensures Sound(Reached(actions))
  {
    hide Sound, Possible, After;
    if actions == [] {
      BeginsSound();
    } else {
      var w, a := Reached(Init(actions)), Last(actions);
      RunsAreSound(Init(actions));
      match a
      case Cycle(_, _, _) => CycleIsSound(w, a);
      case LoadHistory(load, now) => LoadHistoryIsSound(w, load, now);
      case Restart => RestartIsSound(w);
      case EnableNoPoll(history) => EnableIsSound(w, history);
    }
  }

  lemma {:induction false} BeginsSound()
    ensures Sound(BEGIN)
  {
  }

  lemma {:induction false} LoadHistoryIsSound(w: World, load: Call, now: nat)
    requires Sound(w)
    ensures Sound(After(w, LoadHistory(load, now)))
  {
    hide Sound, Loaded;
    LoadedIsSound(w, load, now);
  }

  lemma {:induction false} RestartIsSound(w: World)
    requires Sound(w)
    ensures Sound(After(w, Restart))
  {
    hide Distinct;
  }

  lemma {:induction false} EnableIsSound(w: World, history: Reads)
    requires Sound(w)
    ensures Sound(After(w, EnableNoPoll(history)))
  {
    hide Sound, Restored, ReadError;
    RestoreIsSound(w);
    SwitchedOffIsSound(w);
  }

  lemma {:induction false} SwitchedOffIsSound(w: World)
    requires Sound(w)
    ensures Sound(w.(mon := w.mon.(noPoll := true)))
  {
    hide Distinct;
  }

  /** Over every life of a target, with failing storage and restarts of StatLite: two polls that report a process start
      get the same run exactly if they report the same start. */
  lemma {:induction false} SameRunIffSameStart(actions: seq<Action>, a: Assignment, b: Assignment)
    requires PossibleRun(actions) && a in Reached(actions).log && b in Reached(actions).log
    requires a.start.Some? && b.start.Some?
    ensures a.run == b.run <==> a.start == b.start
  {
    hide Reached, PossibleRun, RunAt;
    RunsAreSound(actions);
    var runs := Reached(actions).db.runs;
    assert Fits(a, runs) && Fits(b, runs);
    if a.start == b.start {
      StartNamesRun(runs, a.run, b.run);
    }
  }

  // ---------- Announced restarts ----------

  /** An announced restart changes the run exactly unless the collection reports the very start of the previous run: a
      lower uptime or lower counters do not split a run whose start is known. */
  lemma {:induction false} AnnouncedRestartChangesRunIff(m: State, runs: seq<Run>, result: CollectionResult, newId: int)
    requires Distinct(runs) && Faithful(m.previous, runs) && RunAt(runs, newId).None?
    requires VerdictOf(m, result).Ensure? && VerdictOf(m, result).restart.Some?
    ensures m.previous.Some? && m.previous.value.row.poll.run.Some?
    ensures
      var run := DetectAppRun(m, runs, result, newId, Works).0;
      && run.Success?
      && (run.value == m.previous.value.row.poll.run.value <==>
            StartOf(result).Some? && StartOf(result) == m.previous.value.processStart)
  {
    hide Distinct, RunAt, Touched, Decreased, CoreDrops, KnownStart, RunStartedAt;
    AnnouncedHasPrevious(m, result);
    var previous := m.previous.value.row.poll.run.value;
    var (run, after) := DetectAppRun(m, runs, result, newId, Works);
    EnsuredIsDistinct(runs, StartOf(result), result.started, newId);
    EnsuredExtends(runs, StartOf(result), result.started, newId);
    if StartOf(result).Some? && StartOf(result) == m.previous.value.processStart {
      StartNamesRun(after, run.value, previous);
    } else if StartOf(result).None? {
      assert run.value == newId;
    }
  }

  /** The run of an announced restart is one never seen before exactly if the collection reports no start or a start
      that no stored run has. */
  lemma {:induction false} AnnouncedRunIsUnseenIff(m: State, runs: seq<Run>, result: CollectionResult, newId: int)
    requires RunAt(runs, newId).None?
    requires VerdictOf(m, result).Ensure? && VerdictOf(m, result).restart.Some?
    ensures
      var run := DetectAppRun(m, runs, result, newId, Works).0;
      && run.Success?
      && (RunAt(runs, run.value).None? <==>
            StartOf(result).None? || RunStartedAt(runs, StartOf(result).value).None?)
  {
    hide Touched, Decreased, CoreDrops, VerdictOf;
    if StartOf(result).Some? && RunStartedAt(runs, StartOf(result).value).Some? {
      RunStartedAtMember(runs, StartOf(result).value);
      RunAtMember(runs, RunStartedAt(runs, StartOf(result).value).value.id);
    }
  }

  lemma {:induction false} AnnouncedHasPrevious(m: State, result: CollectionResult)
    requires VerdictOf(m, result).Ensure? && VerdictOf(m, result).restart.Some?
    ensures m.previous.Some? && m.previous.value.row.poll.run.Some?
    ensures result.source != CaddyCollector.CADDY_SOURCE
  {
    hide Decreased, CoreDrops;
  }

  // ---------- Successful cycles one after the other ----------

  /** A cycle whose collection is clean and storable, that starts no earlier than the stored polls, and whose storage
      calls all work. */
  predicate Healthy(w: World, a: Action) {
    && a.Cycle? && !w.mon.noPoll
    && a.calls.load.Works? && a.calls.run.Works? && a.calls.save.Works? && a.calls.reload.Works?
    && var (result, err) := Settled(a.attempt, a.now);
    && Clean(result, err) && Storable(result)
    && forall r :: r in w.db.rows ==> r.poll.ts <= result.started && r.poll.id < a.calls.newPoll
  }

  function ResultOf(a: Action): CollectionResult
    requires a.Cycle?
  {
    Settled(a.attempt, a.now).0
  }

  /** The monitor as it decides about a run: a fresh one has loaded its history by then. */
  function Deciding(w: World): State {
    if w.mon.previous.None? && LatestOk(w.db.rows).Some?
    then w.mon.(previous := Some(SnapshotOf(LatestOk(w.db.rows).value, w.db.runs)))
    else w.mon
  }

  function RowStored(w: World, a: Action, run: int): PollRow
    requires a.Cycle?
  {
    var result := ResultOf(a);
    RowOf(a.calls.newPoll, Some(run), Announced(result.(processStart := StartOf(result)),
                                                VerdictOf(Deciding(w), result)))
  }

  /** Such a cycle gives its poll a run, stores it as the latest, and leaves the monitor with it as its previous
      success. */
  lemma {:induction false} HealthyCycle(w: World, a: Action) returns (run: int)
    requires Sound(w) && Possible(w, a) && Healthy(w, a)
    ensures DetectAppRun(Deciding(w), w.db.runs, ResultOf(a), a.calls.newRun, Works).0 == Success(run)
    ensures Assigned(w, a) == Some(Assignment(a.calls.newPoll, run, StartOf(ResultOf(a))))
    ensures
      var after, row := After(w, a), RowStored(w, a, run);
      && after.db.rows == w.db.rows + [row] && after.log == w.log + [Assigned(w, a).value]
      && after.mon.previous == Some(SnapshotOf(row, after.db.runs)) && row.poll.samples == ResultOf(a).samples
      && after.mon.status.failures == 0 && !after.mon.noPoll && row.poll.run == Some(run)
      && RunAt(after.db.runs, run).Some?
  {
    hide Sound, DetectAppRun, RunAt, Storable, SnapshotOf, VerdictOf, ErrorSummary, HasErrorEvent;
    var (result, err) := Settled(a.attempt, a.now);
    var m := Deciding(w);
    DecidingIsSound(w, a);
    var (found, runs) := DetectAppRun(m, w.db.runs, result, a.calls.newRun, Works);
    HealthyRun(w, m, result, a.calls.newPoll, a.calls.newRun);
    run := found.value;
    var kept := result.(processStart := StartOf(result));
    MonitorRecovery.StorableWithStart(result, StartOf(result));
    MonitorRecovery.RestartHasReason(m, result);
    CleanHasNoErrors(result, err);
    MonitorRecovery.AnnouncedIsClean(kept, VerdictOf(m, result));
    var row := RowStored(w, a, run);
    if w.db.rows != [] {
      LastIsMember(w.db.rows);
    }
    InitOfAppend(w.db.rows, row);
    assert PollStep(w.mon, w.db, a.attempt, a.now, a.calls) == Concluded(m, w.db, result, err, a.calls);
  }

  lemma {:induction false} CleanHasNoErrors(result: CollectionResult, err: Option<string>)
    requires Clean(result, err)
    ensures err.None? && !HasErrorEvent(result.(processStart := StartOf(result)).events)
  {
  }

  lemma {:induction false} DecidingIsSound(w: World, a: Action)
    requires Sound(w) && Healthy(w, a)
    ensures Loaded(w.mon, w.db, a.calls.load, a.now) == Success(Deciding(w))
        && Faithful(Deciding(w).previous, w.db.runs)
  {
    hide Distinct, SnapshotOf, Faithful;
    LoadedIsSound(w, a.calls.load, a.now);
  }

  lemma {:induction false} HealthyRun(w: World, m: State, result: CollectionResult, poll: int, newId: int)
    requires Sound(w) && Faithful(m.previous, w.db.runs) && RunAt(w.db.runs, newId).None?
    ensures
      var (run, runs) := DetectAppRun(m, w.db.runs, result, newId, Works);
      run.Success? && RunAt(runs, run.value).Some?
  {
    hide Distinct, RunAt, Touched, Ensured, VerdictOf, RowsKnown;
    DetectedFits(m, w.db.runs, result, poll, newId, Works);
    if VerdictOf(m, result).Continue? {
      ContinuedStart(m, w.db.runs, result);
    }
  }

  // ---------- What happens in between ----------

  /** A failed collection, whatever the store does with it, or a look at the history. */
  predicate Quiet(a: Action) {
    || a.LoadHistory?
    || (a.Cycle? && var (result, err) := Settled(a.attempt, a.now); !Clean(result, err))
  }

  function Failures(actions: seq<Action>): nat {
    if actions == [] then 0 else Failures(Init(actions)) + if Last(actions).Cycle? then 1 else 0
  }

  function AfterAll(w: World, actions: seq<Action>): World {
    if actions == [] then w else After(AfterAll(w, Init(actions)), Last(actions))
  }

  lemma {:induction false} ReachedThrough(a: seq<Action>, b: seq<Action>)
    ensures Reached(a + b) == AfterAll(Reached(a), b)
    ensures PossibleRun(a + b) ==> PossibleRun(a)
  {
    hide After, Possible;
    if b == [] {
      assert a + b == a;
    } else {
      InitOfConcat(a, b);
      ReachedThrough(a, Init(b));
    }
  }

  lemma {:induction false} QuietKeepsPrevious(w: World, a: Action)
    requires Quiet(a) && w.mon.previous.Some? && !w.mon.noPoll
    ensures
      var after := After(w, a);
      && after.mon.previous == w.mon.previous && !after.mon.noPoll && after.log == w.log
      && after.db.runs == w.db.runs
      && after.mon.status.failures == w.mon.status.failures + if a.Cycle? then 1 else 0
  {
    hide Stored, Clean, DetectAppRun;
    if a.Cycle? {
      var (result, err) := Settled(a.attempt, a.now);
      UncleanStored(w.mon, w.db, result, err, a.calls);
    }
  }

  lemma {:induction false} UncleanStored(m: State, db: Db, result: CollectionResult, err: Option<string>, calls: Calls)
    requires !Clean(result, err)
    ensures
      var (after, db') := Stored(m, db, result, err, None, calls);
      && after.previous == m.previous && after.noPoll == m.noPoll && db'.runs == db.runs
      && after.status.failures == m.status.failures + 1
  {
    hide Stored, Storable;
    if !Storable(result) || calls.save.Fails? {
      UnsavedFails(m, db, result, err, calls);
    } else {
      SavedUncleanFails(m, db, result, err, calls);
    }
  }

  lemma {:induction false} UnsavedFails(m: State, db: Db, result: CollectionResult, err: Option<string>, calls: Calls)
    requires !Storable(result) || calls.save.Fails?
    ensures
      var (after, db') := Stored(m, db, result, err, None, calls);
      && after.previous == m.previous && after.noPoll == m.noPoll && db'.runs == db.runs
      && after.status.failures == m.status.failures + 1
  {
    hide Storable, SnapshotOf, Inserted, RowOf, Clean, HealthOf, SaveError, Succeeded;
  }

  lemma {:induction false} SavedUncleanFails(m: State, db: Db, result: CollectionResult, err: Option<string>,
                                             calls: Calls)
    requires Storable(result) && calls.save.Works? && !Clean(result, err)
    ensures
      var (after, db') := Stored(m, db, result, err, None, calls);
      && after.previous == m.previous && after.noPoll == m.noPoll && db'.runs == db.runs
      && after.status.failures == m.status.failures + 1
  {
    hide Storable, SnapshotOf, Inserted, RowOf, Clean, HealthOf, SaveError, Succeeded;
  }

  lemma {:induction false} QuietKeeps(w: World, actions: seq<Action>)
    requires (forall a :: a in actions ==> Quiet(a)) && w.mon.previous.Some? && !w.mon.noPoll
    ensures
      var after := AfterAll(w, actions);
      && after.mon.previous == w.mon.previous && !after.mon.noPoll && after.log == w.log
      && after.db.runs == w.db.runs
      && after.mon.status.failures == w.mon.status.failures + Failures(actions)
  {
    hide Quiet, After;
    if actions != [] {
      forall a | a in Init(actions) ensures a in actions {}
      QuietKeeps(w, Init(actions));
      LastIsMember(actions);
      QuietKeepsPrevious(AfterAll(w, Init(actions)), Last(actions));
    }
  }

  // ---------- Runs without a start ----------

  /** Counters that went back show a restart: a lower uptime, both core counters lower, or one of them after a
      failure. */
  predicate RestartEvidence(before: map<Key, Sample>, now: map<Key, Sample>, failed: bool) {
    || Decreased(before, now, UPTIME)
    || (Decreased(before, now, HttpRequestsTotal) && Decreased(before, now, HttpRequestTimeTotal))
    || (failed && (Decreased(before, now, HttpRequestsTotal) || Decreased(before, now, HttpRequestTimeTotal)))
  }

  predicate Startless(a: Action)
    requires a.Cycle?
  {
    ResultOf(a).source != CaddyCollector.CADDY_SOURCE && ResultOf(a).processStart.None?
  }

  lemma {:induction false} StartlessVerdict(m: State, result: CollectionResult)
    requires result.source != CaddyCollector.CADDY_SOURCE && result.processStart.None?
    requires m.previous.Some? && m.previous.value.row.poll.run.Some?
    ensures
      var before := m.previous.value.row.poll;
      if RestartEvidence(before.samples, result.samples, m.status.failures > 0) then VerdictOf(m, result).Ensure?
      else VerdictOf(m, result) == Continue(before.run.value)
    ensures StartOf(result).None?
  {
    hide Decreased;
  }

  lemma {:induction false} StartlessRun(w: World, b: Action, run: int)
    requires Sound(w) && Possible(w, b) && Healthy(w, b) && Startless(b)
    requires w.mon.previous.Some? && w.mon.previous.value.row.poll.run.Some?
    requires DetectAppRun(w.mon, w.db.runs, ResultOf(b), b.calls.newRun, Works).0 == Success(run)
    ensures
      var before := w.mon.previous.value.row.poll;
      run == before.run.value <==>
      !RestartEvidence(before.samples, ResultOf(b).samples, w.mon.status.failures > 0)
  {
    hide RestartEvidence, RunAt, Touched, Distinct, RowsKnown, VerdictOf;
    StartlessVerdict(w.mon, ResultOf(b));
  }

  lemma {:induction false} StartlessPair(w0: World, a: Action, middle: seq<Action>, b: Action)
    requires a.Cycle? && b.Cycle? && Sound(w0) && Possible(w0, a) && Healthy(w0, a) && 
        forall c :: c in middle ==> Quiet(c)
    requires
      var w := AfterAll(After(w0, a), middle);
      Sound(w) && Possible(w, b) && Healthy(w, b) && Startless(b)
    ensures
      var w := AfterAll(After(w0, a), middle);
      var first, second := After(w0, a).log, After(w, b).log;
      && first != [] && |second| == |first| + 1
      && (Last(second).run == Last(first).run <==>
          !RestartEvidence(ResultOf(a).samples, ResultOf(b).samples, Failures(middle) > 0))
  {
    hide Healthy, Possible, Startless, RestartEvidence, After, Quiet, Sound, Assigned, DetectAppRun, RunAt, RowStored;
    var w1 := After(w0, a);
    var w := AfterAll(w1, middle);
    var run := HealthyCycle(w0, a);
    SnapshotRow(RowStored(w0, a, run), w1.db.runs);
    QuietKeeps(w1, middle);
    var next := HealthyCycle(w, b);
    StartlessRun(w, b, next);
  }

  /** Over every life of a target: a successful poll and the next one, which reports no process start and has nothing
      but failed collections before it, share a run exactly if the later one shows no evidence of a restart. */
  lemma {:induction false} StartlessRunsEndOnEvidence(prefix: seq<Action>, a: Action, middle: seq<Action>, b: Action)
    requires PossibleRun(prefix + [a] + middle + [b]) && forall c :: c in middle ==> Quiet(c)
    requires Healthy(Reached(prefix), a) && Healthy(Reached(prefix + [a] + middle), b) && Startless(b)
    ensures
      var first, second := Reached(prefix + [a]).log, Reached(prefix + [a] + middle + [b]).log;
      && first != [] && |second| == |first| + 1
      && (Last(second).run == Last(first).run <==>
          !RestartEvidence(ResultOf(a).samples, ResultOf(b).samples, Failures(middle) > 0))
  {
    hide Reached, PossibleRun, Possible, Healthy, Startless, RestartEvidence, After, Quiet, Sound, Failures;
    TwoPolls(prefix, a, middle, b);
    HealthyIsCycle(Reached(prefix), a);
    HealthyIsCycle(Reached(prefix + [a] + middle), b);
    StartlessPair(Reached(prefix), a, middle, b);
  }

  lemma {:induction false} HealthyIsCycle(w: World, a: Action)
    requires Healthy(w, a)
    ensures a.Cycle?
  {
  }

  /** Where a trace with two singled-out actions passes. */
  lemma {:induction false} TwoPolls(prefix: seq<Action>, a: Action, middle: seq<Action>, b: Action)
    requires PossibleRun(prefix + [a] + middle + [b])
    ensures
      var w0 := Reached(prefix);
      var w := AfterAll(After(w0, a), middle);
      && Sound(w0) && Possible(w0, a) && Sound(w) && Possible(w, b)
      && Reached(prefix + [a]) == After(w0, a) && Reached(prefix + [a] + middle) == w
      && Reached(prefix + [a] + middle + [b]) == After(w, b)
  {
    hide Reached, PossibleRun, Possible, After, Sound;
    var later := prefix + [a] + middle;
    ReachedThrough(later, [b]);
    ReachedThrough(prefix + [a], middle);
    ReachedThrough(prefix, [a]);
    AfterOne(Reached(prefix), a);
    AfterOne(Reached(later), b);
    LastIsPossible(later, b);
    LastIsPossible(prefix, a);
    RunsAreSound(prefix);
    RunsAreSound(later);
  }

  lemma {:induction false} SnapshotRow(row: PollRow, runs: seq<Run>)
    ensures SnapshotOf(row, runs).row == row
  {
  }

  lemma {:induction false} AfterOne(w: World, a: Action)
    ensures AfterAll(w, [a]) == After(w, a)
  {
    hide After;
    assert Init([a]) == [];
  }

  lemma {:induction false} LastIsPossible(prefix: seq<Action>, a: Action)
    requires PossibleRun(prefix + [a])
    ensures PossibleRun(prefix) && Possible(Reached(prefix), a)
  {
    InitOfAppend(prefix, a);
  }

  // ---------- Restarts that are announced without a new run ----------

  /** A poll of an application that reports its process start and its uptime. */
  function Reporting(poll: int, start: int, uptime: real): Action
    requires poll >= 0
  {
    var result := CollectionResult(false, "app", poll, poll, "", "", Some(start),
                                   map[UPTIME := Sample(Gauge, uptime, "seconds")], []);
    Cycle(Attempt(Some(result), None), 0, Calls(Works, Works, Works, Works, poll, poll))
  }

  /** So far these polls are the only ones, with ids and times up to the last, and the last is the previous success. */
  ghost predicate Follow(w: World, last: int, start: int, uptime: real) {
    && Sound(w) && !w.mon.noPoll && w.log != []
    && Last(w.log).start == Some(start)
    && (forall r :: r in w.db.rows ==> r.poll.ts <= last && r.poll.id <= last)
    && (forall r :: r in w.db.runs ==> r.id <= last)
    && w.mon.previous.Some? && w.mon.previous.value.row.poll.run.Some?
    && w.mon.previous.value.processStart == Some(start)
    && w.mon.previous.value.row.poll.samples == map[UPTIME := Sample(Gauge, uptime, "seconds")]
  }

  lemma {:induction false} FreshRun(w: World, poll: int)
    requires forall r :: r in w.db.runs ==> r.id < poll
    ensures RunAt(w.db.runs, poll).None?
  {
    RunAtMember(w.db.runs, poll);
  }

  lemma {:induction false} TouchedIds(runs: seq<Run>, id: int, seenAt: int, bound: int)
    requires forall r :: r in runs ==> r.id < bound
    ensures forall r :: r in Touched(runs, id, seenAt) ==> r.id < bound
  {
    if runs != [] {
      LastIsMember(runs);
      forall r | r in Init(runs) ensures r in runs {}
      TouchedIds(Init(runs), id, seenAt, bound);
    }
  }

  lemma {:induction false} RunsGrow(m: State, runs: seq<Run>, result: CollectionResult, newId: int)
    requires forall r :: r in runs ==> r.id < newId
    ensures forall r :: r in DetectAppRun(m, runs, result, newId, Works).1 ==> r.id <= newId
  {
    hide RunAt, Touched, AppVerdict, CaddyVerdict;
    match VerdictOf(m, result)
    case Continue(id) => TouchedIds(runs, id, result.started, newId);
    case Ensure(_) =>
      if StartOf(result).Some? && RunStartedAt(runs, StartOf(result).value).Some? {
        TouchedIds(runs, RunStartedAt(runs, StartOf(result).value).value.id, result.started, newId);
      }
  }

  lemma {:induction false} ReportIsHealthy(w: World, poll: int, start: int, uptime: real)
    requires 0 <= poll && !w.mon.noPoll && forall r :: r in w.db.runs ==> r.id < poll
    requires forall r :: r in w.db.rows ==> r.poll.ts < poll && r.poll.id < poll
    ensures Healthy(w, Reporting(poll, start, uptime)) && Possible(w, Reporting(poll, start, uptime))
  {
    FreshRun(w, poll);
  }

  lemma {:induction false} ReportedRun(w: World, poll: int, start: int, uptime: real) returns (run: int)
    requires 0 <= poll && Sound(w) && !w.mon.noPoll && forall r :: r in w.db.runs ==> r.id < poll
    requires forall r :: r in w.db.rows ==> r.poll.ts < poll && r.poll.id < poll
    ensures
      var a := Reporting(poll, start, uptime);
      var after := After(w, a);
      && Possible(w, a) && Follow(after, poll, start, uptime)
      && after.log == w.log + [Assignment(poll, run, Some(start))]
      && after.db.rows == w.db.rows + [RowStored(w, a, run)]
  {
    hide Healthy, Sound, DetectAppRun, RunAt, Possible, Assigned, RowStored, Stored, VerdictOf, Faithful;
    var a := Reporting(poll, start, uptime);
    ReportIsHealthy(w, poll, start, uptime);
    run := HealthyCycle(w, a);
    CycleIsSound(w, a);
    var after, row := After(w, a), RowStored(w, a, run);
    RunsAfterHealthy(w, a);
    RunsGrow(Deciding(w), w.db.runs, ResultOf(a), poll);
    RowStoredAt(w, a, run);
    SnapshotRow(row, after.db.runs);
    StoredStart(after, row, Assignment(poll, run, Some(start)));
  }

  lemma {:induction false} RowStoredAt(w: World, a: Action, run: int)
    requires a.Cycle?
    ensures RowStored(w, a, run).poll.ts == ResultOf(a).started && RowStored(w, a, run).poll.id == a.calls.newPoll
  {
    hide VerdictOf, HasErrorEvent;
  }

  lemma {:induction false} StoredStart(w: World, row: PollRow, a: Assignment)
    requires Sound(w) && a in w.log && a.start.Some? && row.poll.run == Some(a.run)
    ensures SnapshotOf(row, w.db.runs).processStart == a.start
  {
    hide Distinct, RowsKnown;
    assert Fits(a, w.db.runs);
  }

  lemma {:induction false} RunsAfterHealthy(w: World, a: Action)
    requires Sound(w) && Possible(w, a) && Healthy(w, a)
    ensures After(w, a).db.runs == DetectAppRun(Deciding(w), w.db.runs, ResultOf(a), a.calls.newRun, Works).1
  {
    hide Sound, DetectAppRun, RunAt, Storable, SnapshotOf, VerdictOf, ErrorSummary, HasErrorEvent;
    DecidingIsSound(w, a);
    HealthyRun(w, Deciding(w), ResultOf(a), a.calls.newPoll, a.calls.newRun);
  }

  /** What is announced after a poll that reported another start, or a higher uptime. */
  lemma {:induction false} ReportAnnounces(w: World, last: int, before: int, uptime: real, poll: int, start: int,
                                           now: real, run: int)
    requires Follow(w, last, before, uptime) && 0 <= poll
    ensures
      var restart := start != before || now < uptime;
      RowStored(w, Reporting(poll, start, now), run).events ==
        if start != before then [Event(Warning, RESTART_DETECTED, "", "process.start.time changed")]
        else if now < uptime then [Event(Warning, RESTART_DETECTED, "", "process uptime decreased")]
        else []
  {
    hide Sound, Announced, RowOf, VerdictOf;
    ReportVerdict(w, last, before, uptime, poll, start, now);
    var kept := ResultOf(Reporting(poll, start, now));
    AnnouncedEvents(kept.(processStart := StartOf(kept)), VerdictOf(Deciding(w), kept), poll, run);
  }

  lemma {:induction false} AnnouncedEvents(result: CollectionResult, verdict: Verdict, id: int, run: int)
    ensures
      RowOf(id, Some(run), Announced(result, verdict)).events ==
      result.events + if verdict.Ensure? && verdict.restart.Some?
                      then [Event(Warning, RESTART_DETECTED, "", verdict.restart.value)] else []
  {
  }

  lemma {:induction false} ReportVerdict(w: World, last: int, before: int, uptime: real, poll: int, start: int,
                                         now: real)
    requires Follow(w, last, before, uptime) && 0 <= poll
    ensures
      VerdictOf(Deciding(w), ResultOf(Reporting(poll, start, now))) ==
      if start != before then Ensure(Some("process.start.time changed"))
      else if now < uptime then Ensure(Some("process uptime decreased"))
      else Continue(w.mon.previous.value.row.poll.run.value)
  {
    hide Sound;
  }

  lemma {:induction false} FirstReport(start: int, uptime: real)
    ensures
      var w := Reached([Reporting(1, start, uptime)]);
      PossibleRun([Reporting(1, start, uptime)]) && Follow(w, 1, start, uptime) && |w.log| == 1
      && w.log[0].start == Some(start)
  {
    hide Follow, After, Possible, Sound;
    BeginsSound();
    var run := ReportedRun(BEGIN, 1, start, uptime);
    var actions := [Reporting(1, start, uptime)];
    assert Init(actions) == [];
    ReachedNothing();
  }

  lemma {:induction false} ReachedNothing()
    ensures Reached([]) == BEGIN && PossibleRun([])
  {
  }

  lemma {:induction false} NextReport(actions: seq<Action>, last: int, before: int, uptime: real, start: int, now: real)
    requires 0 <= last && PossibleRun(actions) && Follow(Reached(actions), last, before, uptime)
    ensures
      var w, all := Reached(actions), actions + [Reporting(last + 1, start, now)];
      var after := Reached(all);
      && PossibleRun(all) && Follow(after, last + 1, start, now)
      && |after.log| == |w.log| + 1 && after.log[..|w.log|] == w.log && Last(after.log).start == Some(start)
      && after.db.rows != []
      && Last(after.db.rows).events ==
         if start != before then [Event(Warning, RESTART_DETECTED, "", "process.start.time changed")]
         else if now < uptime then [Event(Warning, RESTART_DETECTED, "", "process uptime decreased")]
         else []
  {
    hide After, Possible, Sound, RowStored;
    var w, a := Reached(actions), Reporting(last + 1, start, now);
    var run := ReportedRun(w, last + 1, start, now);
    ReportAnnounces(w, last, before, uptime, last + 1, start, now, run);
    InitOfAppend(actions, a);
  }

  /** A restart under an unchanged process start: announced, but the run is the same. */
  lemma {:induction false} LowerUptimeKeepsRun()
    ensures
      var actions := [Reporting(1, 7, 10.0)] + [Reporting(2, 7, 5.0)];
      var w := Reached(actions);
      && PossibleRun(actions) && |w.log| == 2 && w.log[0].run == w.log[1].run && w.db.rows != []
      && Last(w.db.rows).events == [Event(Warning, RESTART_DETECTED, "", "process uptime decreased")]
  {
    hide Reached, PossibleRun, Follow, Reporting;
    FirstReport(7, 10.0);
    NextReport([Reporting(1, 7, 10.0)], 1, 7, 10.0, 7, 5.0);
    var actions := [Reporting(1, 7, 10.0)] + [Reporting(2, 7, 5.0)];
    var log := Reached(actions).log;
    assert log[..1][0] == log[0] && Last(log) == log[1];
    SameRunIffSameStart(actions, log[0], log[1]);
  }

  /** A process start that flaps back: announced, but the run is the one from before. */
  lemma {:induction false} FlappingStartFindsOldRun()
    ensures
      var actions := [Reporting(1, 7, 10.0)] + [Reporting(2, 8, 10.0)] + [Reporting(3, 7, 10.0)];
      var w := Reached(actions);
      && PossibleRun(actions) && |w.log| == 3 && w.log[2].run == w.log[0].run != w.log[1].run && w.db.rows != []
      && Last(w.db.rows).events == [Event(Warning, RESTART_DETECTED, "", "process.start.time changed")]
  {
    hide Reached, PossibleRun, Follow, Reporting;
    FirstReport(7, 10.0);
    var two := [Reporting(1, 7, 10.0)] + [Reporting(2, 8, 10.0)];
    NextReport([Reporting(1, 7, 10.0)], 1, 7, 10.0, 8, 10.0);
    NextReport(two, 2, 8, 10.0, 7, 10.0);
    var actions := two + [Reporting(3, 7, 10.0)];
    var log, before := Reached(actions).log, Reached(two).log;
    assert before == log[..2] && before[..1][0] == before[0] && Last(before) == before[1] && Last(log) == log[2];
    assert before[0] == log[0] && before[1] == log[1];
    SameRunIffSameStart(actions, log[0], log[2]);
    SameRunIffSameStart(actions, log[1], log[2]);
  }
}
