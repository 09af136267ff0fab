/** The stored runs and polls of one target, with the reads and writes the monitor performs. */
module Database {
  import opened Common
  import opened Polls
  import opened Collection

  datatype PollStatus = Ok | Failed

  /** An `app_runs` row. */
  datatype Run = Run(id: int, start: Option<int>, firstSeen: int, lastSeen: int)

  /** A `polls` row with its samples and events. */
  datatype PollRow = PollRow(
    poll: Poll,
    finished: int,
    status: PollStatus,
    summary: string,
    health: string,
    dbHealth: string,
    source: string,
    events: seq<Event>)

  /** Polls are kept as `ORDER BY started_at, id` lists them. */
  datatype Db = Db(rows: seq<PollRow>, runs: seq<Run>)

  const EMPTY := Db([], [])

  /** A stored poll as it is read back, with the start time of its run. */
  datatype Snapshot = Snapshot(row: PollRow, processStart: Option<int>)

  function PollsOf(rows: seq<PollRow>): (r: seq<Poll>)
    ensures |r| == |rows| && forall i :: 0 <= i < |r| ==> r[i] == rows[i].poll
  {
    seq(|rows|, i requires 0 <= i < |rows| => rows[i].poll)
  }

  // ---------- Writes ----------

  /** Error messages joined by "; "; a poll without any is ok. */
  function ErrorSummary(events: seq<Event>): string {
    if events == [] then ""
    else if Last(events).severity != Error then ErrorSummary(Init(events))
    else if HasErrorEvent(Init(events)) then ErrorSummary(Init(events)) + "; " + Last(events).message
    else Last(events).message
  }

  function StatusOf(events: seq<Event>): PollStatus {
    if HasErrorEvent(events) then Failed else Ok
  }

  method PollStatusOf(events: seq<Event>) returns (status: PollStatus, summary: string)
    ensures status == StatusOf(events) && summary == ErrorSummary(events)
  {
    var errors: seq<string> := [];
    summary := "";
    var i := 0;
    while i < |events|
      invariant 0 <= i <= |events|
      invariant errors == [] <==> !HasErrorEvent(events[..i])
      invariant summary == ErrorSummary(events[..i])
    {
      InitOfPrefix(events, i);
      ErrorEventNext(events[..i], events[i]);
      assert events[..i + 1] == events[..i] + [events[i]];
      if events[i].severity == Error {
        summary := if errors == [] then events[i].message else summary + "; " + events[i].message;
        errors := errors + [events[i].message];
      }
      i := i + 1;
    }
    WholePrefix(events);
    status := if errors == [] then Ok else Failed;
  }

  lemma {:induction false} ErrorEventNext(events: seq<Event>, e: Event)
    ensures HasErrorEvent(events + [e]) <==> HasErrorEvent(events) || e.severity == Error
  {
    assert (events + [e])[|events|] == e;
    if HasErrorEvent(events) {
      var i :| 0 <= i < |events| && events[i].severity == Error;
      assert (events + [e])[i] == events[i];
    }
  }

  /** The schema's checks: event types, messages and metric keys are not empty. */
  predicate Storable(result: CollectionResult) {
    && (forall i :: 0 <= i < |result.events| ==> result.events[i].kind != "" && result.events[i].message != "")
    && OtherKey("") !in result.samples
  }

  function RowOf(id: int, run: Option<int>, result: CollectionResult): PollRow {
    PollRow(Poll(id, result.started, run, result.samples), result.finished, StatusOf(result.events),
        ErrorSummary(result.events), result.health, result.dbHealth, result.source, result.events)
  }

  /** The place of a new poll in the time order. */
  function Inserted(rows: seq<PollRow>, row: PollRow): seq<PollRow> {
    if rows == [] || Before(Last(rows).poll, row.poll) then rows + [row]
    else Inserted(Init(rows), row) + [Last(rows)]
  }

  function RunAt(runs: seq<Run>, id: int): Option<Run> {
    if runs == [] then None
    else if Last(runs).id == id then Some(Last(runs))
    else RunAt(Init(runs), id)
  }

  function RunStartedAt(runs: seq<Run>, start: int): Option<Run> {
    if runs == [] then None
    else if Last(runs).start == Some(start) then Some(Last(runs))
    else RunStartedAt(Init(runs), start)
  }

  function Touched(runs: seq<Run>, id: int, seenAt: int): seq<Run> {
    if runs == [] then []
    else Touched(Init(runs), id, seenAt) + [if Last(runs).id == id then Last(runs).(lastSeen := seenAt) else Last(runs)]
  }

  /** A run with this start time is seen again; otherwise a run with a new id begins. */
  function Ensured(runs: seq<Run>, start: Option<int>, seenAt: int, newId: int): (seq<Run>, int) {
    if start.Some? && RunStartedAt(runs, start.value).Some? then
      var id := RunStartedAt(runs, start.value).value.id;
      (Touched(runs, id, seenAt), id)
    else (runs + [Run(newId, start, seenAt, seenAt)], newId)
  }

  // ---------- Reads ----------

  function LatestOk(rows: seq<PollRow>): Option<PollRow> {
    if rows == [] then None
    else if Last(rows).status == Ok then Some(Last(rows))
    else LatestOk(Init(rows))
  }

  function LatestFailed(rows: seq<PollRow>): Option<PollRow> {
    if rows == [] then None
    else if Last(rows).status == Failed then Some(Last(rows))
    else LatestFailed(Init(rows))
  }

  function SnapshotOf(row: PollRow, runs: seq<Run>): Snapshot {
    Snapshot(row,
             if row.poll.run.Some? && RunAt(runs, row.poll.run.value).Some?
                 then RunAt(runs, row.poll.run.value).value.start
             else None)
  }

  /** The failed polls after the latest successful one. */
  function FailedSuffix(rows: seq<PollRow>): nat {
    if rows == [] || Last(rows).status == Ok then 0 else FailedSuffix(Init(rows)) + 1
  }

  const TRAILING_LIMIT := 100

  // ---------- The store ----------

  /** Whether a storage call works; a failing write may have been committed all the same. */
  datatype Call = Works | Fails(cause: string, committed: bool)

  class Store {
    var rows: seq<PollRow>
    var runs: seq<Run>

    constructor ()
      ensures State() == EMPTY
    {
      rows, runs := [], [];
    }

    function State(): Db
      reads this
    {
      Db(rows, runs)
    }

    method SaveCollectionResult(result: CollectionResult, run: Option<int>, newId: int, call: Call)
      returns (r: Result<int, string>)
      modifies this`rows
      ensures r.Success? <==> call.Works? && Storable(result)
      ensures r.Success? ==> r.value == newId
      ensures rows == if Storable(result) && (call.Works? || call.committed)
                      then Inserted(old(rows), RowOf(newId, run, result)) else old(rows)
    {
      if !Storable(result) {
        return Failure("insert collector event or metric sample: constraint failed");
      }
      if call.Fails? && !call.committed {
        return Failure(call.cause);
      }
      var status, summary := PollStatusOf(result.events);
      var row := PollRow(Poll(newId, result.started, run, result.samples), result.finished, status, summary,
                     result.health, result.dbHealth, result.source, result.events);
      rows := Inserted(rows, row);
      r := if call.Works? then Success(newId) else Failure(call.cause);
    }

    method EnsureAppRun(start: Option<int>, seenAt: int, newId: int, call: Call) returns (r: Result<int, string>)
      modifies this`runs
      ensures r == if call.Works? then Success(Ensured(old(runs), start, seenAt, newId).1) else Failure(call.cause)
      ensures runs == if call.Works? || call.committed then Ensured(old(runs), start, seenAt, newId).0 else old(runs)
    {
      if call.Fails? && !call.committed {
        return Failure(call.cause);
      }
      var id := newId;
      if start.Some? && RunStartedAt(runs, start.value).Some? {
        id := RunStartedAt(runs, start.value).value.id;
        runs := Touched(runs, id, seenAt);
      } else {
        runs := runs + [Run(newId, start, seenAt, seenAt)];
      }
      r := if call.Works? then Success(id) else Failure(call.cause);
    }

    method TouchAppRun(id: int, seenAt: int, call: Call) returns (r: Result<(), string>)
      modifies this`runs
      ensures r.Success? <==> call.Works? && RunAt(old(runs), id).Some?
      ensures runs == if call.Works? || call.committed then Touched(old(runs), id, seenAt) else old(runs)
    {
      if call.Fails? && !call.committed {
        return Failure(call.cause);
      }
      var found := RunAt(runs, id).Some?;
      runs := Touched(runs, id, seenAt);
      if call.Fails? {
        return Failure(call.cause);
      }
      r := if found then Success(()) else Failure("app run not found");
    }

    method LatestSnapshot(call: Call) returns (r: Result<Option<Snapshot>, string>)
      ensures r == if call.Fails? then Failure(call.cause)
                   else Success(if rows == [] then None else Some(SnapshotOf(Last(rows), runs)))
    {
      if call.Fails? {
        return Failure(call.cause);
      }
      r := Success(if rows == [] then None else Some(SnapshotOf(Last(rows), runs)));
    }

    method LatestSuccessfulSnapshot(call: Call) returns (r: Result<Option<Snapshot>, string>)
      ensures r == if call.Fails? then Failure(call.cause)
                   else Success(if LatestOk(rows).None? then None else Some(SnapshotOf(LatestOk(rows).value, runs)))
    {
      if call.Fails? {
        return Failure(call.cause);
      }
      var i := |rows|;
      WholePrefix(rows);
      while i > 0
        invariant 0 <= i <= |rows| && LatestOk(rows) == LatestOk(rows[..i])
      {
        InitOfPrefix(rows, i - 1);
        if rows[i - 1].status == Ok {
          return Success(Some(SnapshotOf(rows[i - 1], runs)));
        }
        i := i - 1;
      }
      r := Success(None);
    }

    method LatestFailedPollAt(call: Call) returns (r: Result<Option<int>, string>)
      ensures r == if call.Fails? then Failure(call.cause)
                   else Success(if LatestFailed(rows).None? then None else Some(LatestFailed(rows).value.finished))
    {
      if call.Fails? {
        return Failure(call.cause);
      }
      var i := |rows|;
      WholePrefix(rows);
      while i > 0
        invariant 0 <= i <= |rows| && LatestFailed(rows) == LatestFailed(rows[..i])
      {
        InitOfPrefix(rows, i - 1);
        if rows[i - 1].status == Failed {
          return Success(Some(rows[i - 1].finished));
        }
        i := i - 1;
      }
      r := Success(None);
    }

    method TrailingFailedPolls(call: Call) returns (r: Result<nat, string>)
      ensures r == if call.Fails? then Failure(call.cause) else Success(Capped(FailedSuffix(rows)))
    {
      if call.Fails? {
        return Failure(call.cause);
      }
      var count := 0;
      WholePrefix(rows);
      while count < |rows| && count < TRAILING_LIMIT
        invariant 0 <= count <= |rows| && count <= TRAILING_LIMIT
        invariant FailedSuffix(rows) == FailedSuffix(rows[..|rows| - count]) + count
      {
        InitOfPrefix(rows, |rows| - count - 1);
        if rows[|rows| - count - 1].status == Ok {
          break;
        }
        count := count + 1;
      }
      r := Success(count);
    }
  }

  function Capped(n: nat): nat {
    if n <= TRAILING_LIMIT then n else TRAILING_LIMIT
  }

  // ---------- Facts the state machines rest on ----------

  ghost predicate InTimeOrder(rows: seq<PollRow>) {
    Ordered(PollsOf(rows))
  }

  /** A poll that starts no earlier than all others, with a new id, goes to the end. */
  lemma {:induction false} InsertedLast(rows: seq<PollRow>, row: PollRow)
    requires InTimeOrder(rows)
    requires forall r :: r in rows ==> r.poll.ts <= row.poll.ts && r.poll.id < row.poll.id
    ensures Inserted(rows, row) == rows + [row] && InTimeOrder(rows + [row])
  {
    if rows != [] {
      LastIsMember(rows);
    }
  }

  lemma {:induction false} LatestOkMember(rows: seq<PollRow>)
    ensures LatestOk(rows).Some? ==> LatestOk(rows).value in rows
  {
    if rows != [] {
      LastIsMember(rows);
      LatestOkMember(Init(rows));
      forall r | r in Init(rows) ensures r in rows {}
    }
  }

  lemma {:induction false} RunAtMember(runs: seq<Run>, id: int)
    ensures RunAt(runs, id).Some? ==> RunAt(runs, id).value in runs && RunAt(runs, id).value.id == id
    ensures RunAt(runs, id).None? ==> forall r :: r in runs ==> r.id != id
  {
    if runs != [] {
      RunAtMember(Init(runs), id);
      assert runs == Init(runs) + [Last(runs)];
    }
  }

  lemma {:induction false} RunStartedAtMember(runs: seq<Run>, start: int)
    ensures RunStartedAt(runs, start).Some? ==>
              RunStartedAt(runs, start).value in runs && RunStartedAt(runs, start).value.start == Some(start)
  {
    if runs != [] {
      RunStartedAtMember(Init(runs), start);
      assert runs == Init(runs) + [Last(runs)];
    }
  }

  /** Touching a run changes neither the ids nor the start times. */
  lemma {:induction false} TouchedKeeps(runs: seq<Run>, id: int, seenAt: int, other: int)
    ensures RunAt(Touched(runs, id, seenAt), other).Some? <==> RunAt(runs, other).Some?
    ensures RunAt(runs, other).Some? ==>
              RunAt(Touched(runs, id, seenAt), other).value.start == RunAt(runs, other).value.start
  {
    if runs != [] {
      TouchedKeeps(Init(runs), id, seenAt, other);
      InitOfAppend(Touched(Init(runs), id, seenAt), if Last(runs).id ==
          id then Last(runs).(lastSeen := seenAt) else Last(runs));
    }
  }

  /** Ensuring a run keeps the start times of all others, and the ensured run exists. */
  lemma {:induction false} EnsuredKeeps(runs: seq<Run>, start: Option<int>, seenAt: int, newId: int, other: int)
    requires RunAt(runs, newId).None?
    ensures
      var (after, id) := Ensured(runs, start, seenAt, newId);
      && RunAt(after, id).Some?
      && (RunAt(runs, other).Some? ==>
            RunAt(after, other).Some? && RunAt(after, other).value.start == RunAt(runs, other).value.start)
  {
    if start.Some? && RunStartedAt(runs, start.value).Some? {
      var id := RunStartedAt(runs, start.value).value.id;
      RunStartedAtMember(runs, start.value);
      RunAtMember(runs, id);
      TouchedKeeps(runs, id, seenAt, other);
      TouchedKeeps(runs, id, seenAt, id);
    } else {
      InitOfAppend(runs, Run(newId, start, seenAt, seenAt));
    }
  }
}
