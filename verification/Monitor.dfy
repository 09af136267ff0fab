/** The monitor of one target: a polling cycle against the collector and the store, and the no-poll restore. */
module Monitor {
  import opened Common
  import opened Polls
  import opened Collection
  import opened Database
  import CaddyCollector

  datatype Status = Status(
    lastPollAt: Option<int>,
    lastSuccessAt: Option<int>,
    lastFailedAt: Option<int>,
    failures: nat,
    summary: string,
    lastPollId: int,
    lastSuccessId: int)

  /** Health reported by the newest attempt, if it reported any. */
  datatype Health = Unreported | Reported(application: string, dependency: string, observedAt: int)

  datatype State = State(noPoll: bool, status: Status, latest: Option<Snapshot>, previous: Option<Snapshot>,
                         health: Health)

  const NEVER := Status(None, None, None, 0, "", 0, 0)
  const FRESH := State(false, NEVER, None, None, Unreported)

  const RESTART_DETECTED := "restart_detected"
  const UPTIME := OtherKey("process_uptime")

  function HealthOf(health: string, dbHealth: string, finished: int): Health {
    if health == "" && dbHealth == "" then Unreported else Reported(health, dbHealth, finished)
  }

  // ---------- Restart detection ----------

  predicate Decreased(previous: map<Key, Sample>, current: map<Key, Sample>, k: Key) {
    k in previous && k in current && current[k].value < previous[k].value
  }

  function CoreDrops(previous: map<Key, Sample>, current: map<Key, Sample>): nat {
    (if Decreased(previous, current, HttpRequestsTotal) then 1 else 0)
    + (if Decreased(previous, current, HttpRequestTimeTotal) then 1 else 0)
  }

  /** Whether the run goes on, or a run must be ensured, possibly after a restart that has a reason. */
  datatype Verdict = Continue(run: int) | Ensure(restart: Option<string>)

  /** For Caddy only an unbroken chain of successful polls of this very monitor carries the run on. */
  function CaddyVerdict(m: State, result: CollectionResult): Verdict {
    if m.status.lastSuccessAt.None? || m.status.failures > 0 || result.continuityBreak || m.previous.None?
       || m.previous.value.row.poll.run.None?
    then Ensure(None)
    else Continue(m.previous.value.row.poll.run.value)
  }

  function AppVerdict(m: State, result: CollectionResult): Verdict {
    if m.previous.None? || m.previous.value.row.poll.run.None? then Ensure(None)
    else
      var previous := m.previous.value;
      var samples := previous.row.poll.samples;
      if previous.processStart.Some? && result.processStart.Some? && previous.processStart != result.processStart then
        Ensure(Some("process.start.time changed"))
      else if Decreased(samples, result.samples, UPTIME) then Ensure(Some("process uptime decreased"))
      else if CoreDrops(samples, result.samples) >= 2 then Ensure(Some("core cumulative counters decreased"))
      else if m.status.failures > 0 && CoreDrops(samples, result.samples) > 0 then
        Ensure(Some("poll failure followed by lower cumulative counter"))
      else if result.processStart.Some? && previous.processStart.None? then Ensure(None)
      else Continue(previous.row.poll.run.value)
  }

  function VerdictOf(m: State, result: CollectionResult): Verdict {
    if result.source == CaddyCollector.CADDY_SOURCE then CaddyVerdict(m, result) else AppVerdict(m, result)
  }

  function StartOf(result: CollectionResult): Option<int> {
    if result.source == CaddyCollector.CADDY_SOURCE then None else result.processStart
  }

  /** The run of a successful collection, or the storage error that prevented it, and the runs afterwards. */
  function DetectAppRun(m: State, runs: seq<Run>, result: CollectionResult, newId: int, call: Call)
    : (Result<int, string>, seq<Run>)
  {
    match VerdictOf(m, result)
    case Continue(run) =>
      var after := if call.Works? || call.committed then Touched(runs, run, result.started) else runs;
      if call.Fails? then (Failure(call.cause), after)
      else if RunAt(runs, run).None? then (Failure("app run not found"), after)
      else (Success(run), after)
    case Ensure(_) =>
      var (after, id) := Ensured(runs, StartOf(result), result.started, newId);
      if call.Works? then (Success(id), after) else (Failure(call.cause), if call.committed then after else runs)
  }

  // ---------- Recording ----------

  function Succeeded(m: State, at: int, pollId: int, snapshot: Snapshot): State {
    m.(latest := Some(snapshot), previous := Some(snapshot),
       health := HealthOf(snapshot.row.health, snapshot.row.dbHealth, snapshot.row.finished),
       status := Status(Some(at), Some(at), m.status.lastFailedAt, 0, "", pollId, pollId))
  }

  function FailedPoll(m: State, at: int, pollId: int, summary: string, snapshot: Option<Snapshot>,
                      health: Health): State {
    m.(latest := if snapshot.Some? then snapshot else m.latest,
       health := health,
       status := Status(Some(at), m.status.lastSuccessAt, Some(at), m.status.failures + 1, summary, pollId,
                        m.status.lastSuccessId))
  }

  // ---------- One polling cycle ----------

  /** How the storage calls of a cycle end, and the ids SQLite would hand out. */
  datatype Calls = Calls(load: Call, run: Call, save: Call, reload: Call, newRun: int, newPoll: int)

  /** A fresh monitor first looks for its latest successful poll; None means that the store could not tell. */
  function Loaded(m: State, db: Db, load: Call, now: int): Result<State, State> {
    if m.previous.Some? then Success(m)
    else if load.Fails? then Failure(FailedPoll(m, now, 0, "load previous successful poll: " + load.cause, None,
                                                Unreported))
    else if LatestOk(db.rows).None? then Success(m)
    else Success(m.(previous := Some(SnapshotOf(LatestOk(db.rows).value, db.runs))))
  }

  /** A collector that returned nothing counts as a failed collection at this instant. */
  function Settled(attempt: Attempt, now: nat): (CollectionResult, Option<string>) {
    if attempt.result.Some? then (attempt.result.value, attempt.err)
    else
      var nothing := "collector returned no result";
      (CollectionResult(false, "", now, now, "", "", None, map[], [Event(Error, "collector_failed", "", nothing)]),
       if attempt.err.None? then Some(nothing) else attempt.err)
  }

  predicate Clean(result: CollectionResult, err: Option<string>) {
    err.None? && !HasErrorEvent(result.events)
  }

  function Announced(result: CollectionResult, verdict: Verdict): CollectionResult {
    if verdict.Ensure? && verdict.restart.Some? then
      result.(events := result.events + [Event(Warning, RESTART_DETECTED, "", verdict.restart.value)])
    else result
  }

  /** Saves a result under a run and publishes what the store then calls the latest poll. */
  function Stored(m: State, db: Db, result: CollectionResult, err: Option<string>, run: Option<int>, calls: Calls)
    : (State, Db)
  {
    var health := HealthOf(result.health, result.dbHealth, result.finished);
    var rows := if Storable(result) && (calls.save.Works? || calls.save.committed)
                then Inserted(db.rows, RowOf(calls.newPoll, run, result)) else db.rows;
    var db' := db.(rows := rows);
    if !Storable(result) || calls.save.Fails? then
      (FailedPoll(m, result.finished, 0, "store poll: " + SaveError(result, calls.save), None, health), db')
    else if calls.reload.Fails? then
      (FailedPoll(m, result.finished, calls.newPoll, "load stored poll: " + calls.reload.cause, None, health), db')
    else if rows == [] then
      (FailedPoll(m, result.finished, calls.newPoll, "load stored poll: sql: no rows in result set", None, health), db')
    else
      var snapshot := SnapshotOf(Last(rows), db.runs);
      if Clean(result, err) then (Succeeded(m, result.finished, calls.newPoll, snapshot), db')
      else
        var summary := if err.Some? && snapshot.row.summary == "" then err.value else snapshot.row.summary;
        (FailedPoll(m, result.finished, calls.newPoll, summary, Some(snapshot), health), db')
  }

  function SaveError(result: CollectionResult, save: Call): string {
    if !Storable(result) then "insert collector event or metric sample: constraint failed"
    else if save.Fails? then save.cause else ""
  }

  /** Everything after the collection. */
  function Concluded(m: State, db: Db, result: CollectionResult, err: Option<string>, calls: Calls): (State, Db) {
    if !Clean(result, err) then Stored(m, db, result, err, None, calls)
    else
      var (run, runs) := DetectAppRun(m, db.runs, result, calls.newRun, calls.run);
      var db' := db.(runs := runs);
      if run.Failure? then
        (FailedPoll(m, result.finished, 0, "detect app run: " + run.error, None,
                    HealthOf(result.health, result.dbHealth, result.finished)), db')
      else
        var kept := result.(processStart := StartOf(result));
        Stored(m, db', Announced(kept, VerdictOf(m, result)), err, Some(run.value), calls)
  }

  /** The whole cycle; the collector is not asked when polling is off or the history cannot be read. */
  function PollStep(m: State, db: Db, attempt: Attempt, now: nat, calls: Calls): (State, Db) {
    if m.noPoll then (m, db)
    else
      match Loaded(m, db, calls.load, now)
      case Failure(failed) => (failed, db)
      case Success(loaded) =>
        var (result, err) := Settled(attempt, now);
        Concluded(loaded, db, result, err, calls)
  }

  // ---------- The no-poll restore ----------

  /** What a monitor in no-poll mode shows for a stored history. */
  function Restored(m: State, db: Db): State {
    var m := m.(noPoll := true);
    if db.rows == [] then m
    else
      var last := Last(db.rows);
      var ok, failed := LatestOk(db.rows), LatestFailed(db.rows);
      m.(latest := Some(SnapshotOf(last, db.runs)),
         previous := if ok.Some? then Some(SnapshotOf(ok.value, db.runs)) else m.previous,
         health := HealthOf(last.health, last.dbHealth, last.finished),
         status := Status(
           Some(last.finished),
           if ok.Some? then Some(ok.value.finished) else m.status.lastSuccessAt,
           if failed.Some? then Some(failed.value.finished) else m.status.lastFailedAt,
           if last.status != Ok then Capped(FailedSuffix(db.rows)) else m.status.failures,
           if last.status != Ok then last.summary else m.status.summary,
           last.poll.id,
           if ok.Some? then ok.value.poll.id else m.status.lastSuccessId))
  }

  /** How the four reads of a restore end. */
  datatype Reads = Reads(latest: Call, ok: Call, trailing: Call, failed: Call)

  /** The first read that fails; without a stored poll only one is made. */
  function ReadError(db: Db, history: Reads): Option<string> {
    if history.latest.Fails? then Some(history.latest.cause)
    else if db.rows == [] then None
    else if history.ok.Fails? then Some(history.ok.cause)
    else if history.trailing.Fails? then Some(history.trailing.cause)
    else if history.failed.Fails? then Some(history.failed.cause)
    else None
  }

  /** Switching polling off; a read that fails leaves everything but the flag as it was. */
  function Enabled(m: State, db: Db, history: Reads): State {
    if ReadError(db, history).Some? then m.(noPoll := true) else Restored(m, db)
  }

  // ---------- The monitor object ----------

  class TargetMonitor {
    const store: Store
    var noPoll: bool
    var status: Status
    var latest: Option<Snapshot>
    var previous: Option<Snapshot>
    var health: Health

    constructor (store: Store)
      ensures this.store == store && View() == FRESH
    {
      this.store := store;
      noPoll, status, latest, previous, health := false, NEVER, None, None, Unreported;
    }

    function View(): State
      reads this
    {
      State(noPoll, status, latest, previous, health)
    }

    method RecordSuccess(at: int, pollId: int, snapshot: Snapshot)
      modifies this
      ensures View() == Succeeded(old(View()), at, pollId, snapshot)
    {
      latest := Some(snapshot);
      previous := Some(snapshot);
      health := HealthOf(snapshot.row.health, snapshot.row.dbHealth, snapshot.row.finished);
      status := status.(lastPollAt := Some(at), lastSuccessAt := Some(at), failures := 0, summary := "",
                        lastPollId := pollId, lastSuccessId := pollId);
    }

    method RecordFailure(at: int, pollId: int, summary: string, snapshot: Option<Snapshot>, observed: Health)
      modifies this
      ensures View() == FailedPoll(old(View()), at, pollId, summary, snapshot, observed)
    {
      if snapshot.Some? {
        latest := snapshot;
      }
      health := observed;
      status := status.(lastPollAt := Some(at), lastFailedAt := Some(at), failures := status.failures + 1,
                        summary := summary, lastPollId := pollId);
    }

    method PollNow(attempt: Attempt, now: nat, calls: Calls)
      modifies this, store
      ensures (View(), store.State()) == PollStep(old(View()), old(store.State()), attempt, now, calls)
    {
      hide HasErrorEvent, Storable, SnapshotOf, ErrorSummary, LatestOk, Inserted;
      if noPoll {
        return;
      }
      if previous.None? {
        var loaded := store.LatestSuccessfulSnapshot(calls.load);
        if loaded.Failure? {
          RecordFailure(now, 0, "load previous successful poll: " + loaded.error, None, Unreported);
          return;
        }
        if loaded.value.Some? {
          previous := loaded.value;
        }
      }
      var (result, err) := Settled(attempt, now);
      Conclude(result, err, calls);
    }

    method Conclude(result: CollectionResult, err: Option<string>, calls: Calls)
      modifies this, store
      ensures (View(), store.State()) == Concluded(old(View()), old(store.State()), result, err, calls)
    {
      hide HasErrorEvent, Storable, Stored, AppVerdict, CaddyVerdict, Touched, Ensured;
      if !Clean(result, err) {
        Store(result, err, None, calls);
        return;
      }
      var run := FindRun(result, calls);
      if run.Failure? {
        RecordFailure(result.finished, 0, "detect app run: " + run.error, None,
                      HealthOf(result.health, result.dbHealth, result.finished));
        return;
      }
      var announced := Announced(result.(processStart := StartOf(result)), VerdictOf(View(), result));
      Store(announced, err, Some(run.value), calls);
    }

    method FindRun(result: CollectionResult, calls: Calls) returns (run: Result<int, string>)
      modifies store`runs
      ensures (run, store.runs) == DetectAppRun(View(), old(store.runs), result, calls.newRun, calls.run)
    {
      var verdict := VerdictOf(View(), result);
      match verdict
      case Continue(id) =>
        var touched := store.TouchAppRun(id, result.started, calls.run);
        if touched.Success? {
          return Success(id);
        }
        run := Failure(if calls.run.Fails? then calls.run.cause else "app run not found");
      case Ensure(_) =>
        run := store.EnsureAppRun(StartOf(result), result.started, calls.newRun, calls.run);
    }

    method Store(result: CollectionResult, err: Option<string>, run: Option<int>, calls: Calls)
      modifies this, store`rows
      ensures (View(), store.State()) == Stored(old(View()), old(store.State()), result, err, run, calls)
    {
      hide HasErrorEvent, Storable, RowOf, SnapshotOf, Inserted;
      var observed := HealthOf(result.health, result.dbHealth, result.finished);
      var saved := store.SaveCollectionResult(result, run, calls.newPoll, calls.save);
      if saved.Failure? {
        RecordFailure(result.finished, 0, "store poll: " + SaveError(result, calls.save), None, observed);
        return;
      }
      var loaded := store.LatestSnapshot(calls.reload);
      if loaded.Failure? {
        RecordFailure(result.finished, saved.value, "load stored poll: " + loaded.error, None, observed);
        return;
      }
      if loaded.value.None? {
        RecordFailure(result.finished, saved.value, "load stored poll: sql: no rows in result set", None, observed);
        return;
      }
      var snapshot := loaded.value.value;
      if Clean(result, err) {
        RecordSuccess(result.finished, saved.value, snapshot);
      } else {
        var summary := snapshot.row.summary;
        if err.Some? && summary == "" {
          summary := err.value;
        }
        RecordFailure(result.finished, saved.value, summary, Some(snapshot), observed);
      }
    }

    /** Stops polling; nothing but the flag changes if a read fails. */
    method EnableNoPoll(history: Reads) returns (err: Option<string>)
      modifies this
      ensures err == ReadError(store.State(), history)
      ensures View() == Enabled(old(View()), store.State(), history)
    {
      hide LatestOk, LatestFailed, FailedSuffix, RunAt;
      noPoll := true;
      var snapshot := store.LatestSnapshot(history.latest);
      if snapshot.Failure? {
        return Some(snapshot.error);
      }
      if snapshot.value.None? {
        return None;
      }
      var successful := store.LatestSuccessfulSnapshot(history.ok);
      if successful.Failure? {
        return Some(successful.error);
      }
      var trailing := store.TrailingFailedPolls(history.trailing);
      if trailing.Failure? {
        return Some(trailing.error);
      }
      var failedAt := store.LatestFailedPollAt(history.failed);
      if failedAt.Failure? {
        return Some(failedAt.error);
      }
      var row := snapshot.value.value.row;
      latest := snapshot.value;
      health := HealthOf(row.health, row.dbHealth, row.finished);
      status := status.(lastPollAt := Some(row.finished), lastPollId := row.poll.id);
      if successful.value.Some? {
        previous := successful.value;
        status := status.(lastSuccessAt := Some(successful.value.value.row.finished),
                          lastSuccessId := successful.value.value.row.poll.id);
      }
      if failedAt.value.Some? {
        status := status.(lastFailedAt := failedAt.value);
      }
      if row.status != Ok {
        status := status.(failures := trailing.value, summary := row.summary);
      }
      err := None;
    }
  }
}
