/** What a monitor shows after a polling cycle, told from the collection and the storage calls. */
module MonitorViews {
  import opened Common
  import opened Polls
  import opened Collection
  import opened Database
  import opened Monitor
  import opened MonitorRuns
  import opened StorageFacts
  import MonitorRecovery

  /** The health of the newest attempt, if it reported any. */
  ghost predicate HealthMeans(shown: Health, application: string, dependency: string, at: int) {
    if application == "" && dependency == "" then shown.Unreported?
    else
      shown.Reported? && shown.application == application && shown.dependency == dependency && shown.observedAt == at
  }

  lemma {:induction false} HealthIsShown(application: string, dependency: string, at: int)
    ensures HealthMeans(HealthOf(application, dependency, at), application, dependency, at)
  {
  }

  /** A recorded success is the latest and the previous successful poll, and ends every failure. */
  lemma {:induction false} SuccessIsShown(w: World, a: Action)
    requires Sound(w) && Possible(w, a) && Healthy(w, a)
    ensures a.Cycle?
    ensures
      var after, result := After(w, a), ResultOf(a);
      && after.db.rows != [] && Last(after.db.rows).poll.id == a.calls.newPoll
      && after.mon.latest.Some? && after.mon.latest.value.row == Last(after.db.rows)
      && after.mon.previous == after.mon.latest
      && after.mon.status ==
         Status(Some(result.finished), Some(result.finished), w.mon.status.lastFailedAt, 0, "", a.calls.newPoll,
                a.calls.newPoll)
      && HealthMeans(after.mon.health, result.health, result.dbHealth, result.finished)
  {
    hide Sound, Possible, Assigned, DetectAppRun, RunAt, VerdictOf, HealthMeans, HealthOf, RowStored, Healthy;
    HealthyIsCycle(w, a);
    var run := HealthyCycle(w, a);
    var row := RowStored(w, a, run);
    InitOfAppend(w.db.rows, row);
    StoredRowMeans(w, a, run);
    var result := ResultOf(a);
    HealthIsShown(result.health, result.dbHealth, result.finished);
    HealthyConcludes(w, a, run);
  }

  lemma {:induction false} StoredRowMeans(w: World, a: Action, run: int)
    requires a.Cycle?
    ensures
      var row, result := RowStored(w, a, run), ResultOf(a);
      && row.poll.id == a.calls.newPoll && row.finished == result.finished
      && row.health == result.health && row.dbHealth == result.dbHealth
  {
    hide VerdictOf, ErrorSummary, StatusOf;
    var result := ResultOf(a);
    RowMeans(a.calls.newPoll, Some(run),
             Announced(result.(processStart := StartOf(result)), VerdictOf(Deciding(w), result)));
  }

  /** After such a cycle the monitor is what a success with this row makes of it. */
  lemma {:induction false} HealthyConcludes(w: World, a: Action, run: int)
    requires a.Cycle? && Healthy(w, a) && Sound(w) && Possible(w, a)
    requires After(w, a).db.rows == w.db.rows + [RowStored(w, a, run)]
    requires DetectAppRun(Deciding(w), w.db.runs, ResultOf(a), a.calls.newRun, Works).0 == Success(run)
    ensures
      After(w, a).mon ==
      Succeeded(Deciding(w), ResultOf(a).finished, a.calls.newPoll,
                SnapshotOf(RowStored(w, a, run), After(w, a).db.runs))
  {
    hide DetectAppRun, RunAt, Storable, SnapshotOf, VerdictOf, ErrorSummary, HasErrorEvent, Sound, Inserted, Succeeded;
    var (result, err) := Settled(a.attempt, a.now);
    var m := Deciding(w);
    DecidingIsSound(w, a);
    var kept := result.(processStart := StartOf(result));
    MonitorRecovery.StorableWithStart(result, StartOf(result));
    MonitorRecovery.RestartHasReason(m, result);
    CleanHasNoErrors(result, err);
    MonitorRecovery.AnnouncedIsClean(kept, VerdictOf(m, result));
    InitOfAppend(w.db.rows, RowStored(w, a, run));
    assert PollStep(w.mon, w.db, a.attempt, a.now, a.calls) == Concluded(m, w.db, result, err, a.calls);
  }

  /** Every event says what kind it is and what happened, and every sample has a key. */
  ghost predicate Named(result: CollectionResult) {
    && (forall e :: e in result.events ==> e.kind != "" && e.message != "")
    && (forall k :: k in result.samples ==> k != OtherKey(""))
  }

  lemma {:induction false} NamedIsStorable(result: CollectionResult)
    ensures Storable(result) <==> Named(result)
  {
    forall e | e in result.events ensures exists i :: 0 <= i < |result.events| && result.events[i] == e {}
  }

  /** A failed collection that is stored as the newest poll: it has no run, counts as one more failure, and leaves the
      previous success alone. Its summary is what its error events say, else what the collector said. */
  lemma {:induction false} FailureIsShown(m: State, db: Db, result: CollectionResult, err: Option<string>, calls: Calls)
    requires (err.Some? || ErrorMessages(result.events) != []) && Named(result) && InTimeOrder(db.rows)
    requires calls.save.Works? && calls.reload.Works?
    requires forall r :: r in db.rows ==> r.poll.ts <= result.started && r.poll.id < calls.newPoll
    ensures
      var (after, db') := Concluded(m, db, result, err, calls);
      && db'.runs == db.runs && |db'.rows| == |db.rows| + 1 && db'.rows[..|db.rows|] == db.rows
      && after.latest.Some? && after.latest.value.row == Last(db'.rows) && after.previous == m.previous
      && Last(db'.rows).poll.id == calls.newPoll && Last(db'.rows).poll.run == None
      && after.status.failures == m.status.failures + 1 && after.status.lastPollId == calls.newPoll
      && after.status.lastPollAt == Some(result.finished) && after.status.lastFailedAt == Some(result.finished)
      && after.status.lastSuccessAt == m.status.lastSuccessAt && after.status.lastSuccessId == m.status.lastSuccessId
      && HealthMeans(after.health, result.health, result.dbHealth, result.finished)
      && after.status.summary ==
         (if err.Some? && Joined(ErrorMessages(result.events)) == "" then err.value
          else Joined(ErrorMessages(result.events)))
  {
    hide Inserted, Storable, SnapshotOf, HealthMeans, HealthOf, ErrorSummary, RowOf, InTimeOrder, Joined, ErrorMessages;
    var row := RowOf(calls.newPoll, None, result);
    NamedIsStorable(result);
    RowMeans(calls.newPoll, None, result);
    SummaryJoinsErrors(result.events);
    HealthIsShown(result.health, result.dbHealth, result.finished);
    InsertedLast(db.rows, row);
    InitOfAppend(db.rows, row);
    SnapshotKeepsRow(row, db.runs);
  }

  lemma {:induction false} SnapshotKeepsRow(row: PollRow, runs: seq<Run>)
    ensures SnapshotOf(row, runs).row == row
  {
  }

  /** The run that would go on is not stored. */
  predicate RunIsLost(m: State, db: Db, result: CollectionResult) {
    VerdictOf(m, result).Continue? && forall r :: r in db.runs ==> r.id != VerdictOf(m, result).run
  }

  /** What is shown of a poll that cannot be stored or read back; nothing is said of one that can. */
  ghost predicate StoringIsShown(after: State, rows: seq<PollRow>, m: State, before: seq<PollRow>,
                                 result: CollectionResult, calls: Calls)
  {
    if !Named(result) then
      && FailureSays(after, m, result, 0, "store poll: " + "insert collector event or metric sample: constraint failed")
      && rows == before
    else if calls.save.Fails? then FailureSays(after, m, result, 0, "store poll: " + calls.save.cause)
    else calls.reload.Fails? ==>
      FailureSays(after, m, result, calls.newPoll, "load stored poll: " + calls.reload.cause)
  }

  /** A collection whose run cannot be found, or that cannot be stored or read back, is one more failure that says so;
      what is shown of the polls stays. */
  lemma {:induction false} StorageFailureIsShown(m: State, db: Db, result: CollectionResult, err: Option<string>,
                                                 calls: Calls)
    ensures
      var (after, db') := Concluded(m, db, result, err, calls);
      var clean := err.None? && ErrorMessages(result.events) == [];
      if clean && calls.run.Fails? then
        FailureSays(after, m, result, 0, "detect app run: " + calls.run.cause) && db'.rows == db.rows
      else if clean && RunIsLost(m, db, result) then
        FailureSays(after, m, result, 0, "detect app run: app run not found") && db' == db
      else StoringIsShown(after, db'.rows, m, db.rows, result, calls)
  {
    hide ErrorSummary, Stored, Announced, StoringIsShown, ErrorMessages, VerdictOf, RunIsLost, FailureSays;
    SummaryJoinsErrors(result.events);
    if err.None? && ErrorMessages(result.events) == [] {
      DetectionFails(m, db, result, err, calls);
      var (run, runs) := DetectAppRun(m, db.runs, result, calls.newRun, calls.run);
      if run.Success? {
        var announced := Announced(result.(processStart := StartOf(result)), VerdictOf(m, result));
        StoringFails(m, db.(runs := runs), announced, err, Some(run.value), calls);
        AnnouncedKeepsHealth(m, result);
        var (after, db') := Concluded(m, db, result, err, calls);
        SameShown(after, db'.rows, m, db.rows, announced, result, calls);
      }
    } else {
      StoringFails(m, db, result, err, None, calls);
    }
  }

  lemma {:induction false} DetectionFails(m: State, db: Db, result: CollectionResult, err: Option<string>,
                                          calls: Calls)
    requires err.None? && ErrorMessages(result.events) == []
    ensures
      var (after, db') := Concluded(m, db, result, err, calls);
      var detected := DetectAppRun(m, db.runs, result, calls.newRun, calls.run).0;
      && (detected.Failure? <==> calls.run.Fails? || RunIsLost(m, db, result))
      && (calls.run.Fails? ==>
            FailureSays(after, m, result, 0, "detect app run: " + calls.run.cause) && db'.rows == db.rows)
      && (calls.run.Works? && detected.Failure? ==>
            FailureSays(after, m, result, 0, "detect app run: app run not found") && db' == db)
  {
    hide HealthMeans, HealthOf, ErrorSummary, VerdictOf, RunAt, Touched, Ensured, Stored, Announced, ErrorMessages;
    SummaryJoinsErrors(result.events);
    HealthIsShown(result.health, result.dbHealth, result.finished);
    if VerdictOf(m, result).Continue? {
      LostIsUnknown(db.runs, VerdictOf(m, result).run, result.started);
    }
  }

  lemma {:induction false} StoringFails(m: State, db: Db, result: CollectionResult, err: Option<string>,
                                        run: Option<int>, calls: Calls)
    ensures
      var (after, db') := Stored(m, db, result, err, run, calls);
      StoringIsShown(after, db'.rows, m, db.rows, result, calls)
  {
    hide Inserted, SnapshotOf, HealthMeans, HealthOf, ErrorSummary, RowOf, Storable, Named;
    NamedIsStorable(result);
    HealthIsShown(result.health, result.dbHealth, result.finished);
  }

  lemma {:induction false} SameShown(after: State, rows: seq<PollRow>, m: State, before: seq<PollRow>,
                                     a: CollectionResult, b: CollectionResult, calls: Calls)
    requires StoringIsShown(after, rows, m, before, a, calls) && (Named(a) <==> Named(b))
    requires a.finished == b.finished && a.health == b.health && a.dbHealth == b.dbHealth
    ensures StoringIsShown(after, rows, m, before, b, calls)
  {
    hide Named, HealthMeans;
  }

  lemma {:induction false} LostIsUnknown(runs: seq<Run>, id: int, seenAt: int)
    ensures RunAt(runs, id).None? <==> forall r :: r in runs ==> r.id != id
    ensures RunAt(runs, id).None? ==> Touched(runs, id, seenAt) == runs
  {
    if runs != [] {
      LostIsUnknown(Init(runs), id, seenAt);
      assert runs == Init(runs) + [Last(runs)];
    }
  }

  lemma {:induction false} AnnouncedKeepsHealth(m: State, result: CollectionResult)
    ensures
      var announced := Announced(result.(processStart := StartOf(result)), VerdictOf(m, result));
      && (Named(announced) <==> Named(result)) && announced.health == result.health
      && announced.dbHealth == result.dbHealth && announced.finished == result.finished
  {
    hide VerdictOf;
    MonitorRecovery.RestartHasReason(m, result);
    var announced := Announced(result.(processStart := StartOf(result)), VerdictOf(m, result));
    assert forall e :: e in result.events ==> e in announced.events;
  }

  ghost predicate FailureSays(after: State, m: State, result: CollectionResult, pollId: int, summary: string) {
    && after.latest == m.latest && after.previous == m.previous && after.noPoll == m.noPoll
    && after.status.failures == m.status.failures + 1 && after.status.summary == summary
    && after.status.lastPollId == pollId && after.status.lastSuccessId == m.status.lastSuccessId
    && after.status.lastPollAt == Some(result.finished) && after.status.lastFailedAt == Some(result.finished)
    && after.status.lastSuccessAt == m.status.lastSuccessAt
    && HealthMeans(after.health, result.health, result.dbHealth, result.finished)
  }

  /** A cycle that cannot read its history asks no collector, stores nothing and shows no health. */
  lemma {:induction false} UnreadHistoryIsShown(m: State, db: Db, attempt: Attempt, now: nat, calls: Calls)
    requires !m.noPoll && m.previous.None? && calls.load.Fails?
    ensures
      var (after, db') := PollStep(m, db, attempt, now, calls);
      && db' == db && after.latest == m.latest && after.previous.None? && after.health.Unreported?
      && after.status.failures == m.status.failures + 1 && after.status.lastPollId == 0
      && after.status.summary == "load previous successful poll: " + calls.load.cause
      && after.status.lastPollAt == Some(now) && after.status.lastFailedAt == Some(now)
      && after.status.lastSuccessAt == m.status.lastSuccessAt && after.status.lastSuccessId == m.status.lastSuccessId
  {
  }

  /** A collector that returns nothing has failed at this instant. */
  lemma {:induction false} NoResultIsAFailure(attempt: Attempt, now: nat)
    requires attempt.result.None?
    ensures
      var (result, err) := Settled(attempt, now);
      && err == Some(if attempt.err.Some? then attempt.err.value else "collector returned no result")
      && result.started == now && result.finished == now && result.samples == map[]
      && ErrorMessages(result.events) == ["collector returned no result"]
      && |result.events| == 1 && result.events[0].kind == "collector_failed"
  {
    var e := Event(Error, "collector_failed", "", "collector returned no result");
    assert [e][1..] == [] && ErrorMessages([e]) == [e.message] + ErrorMessages([e][1..]);
  }

  /** A restored monitor shows the latest poll, and the successes and failures that the rows tell. */
  lemma {:induction false} RestoreIsShown(m: State, db: Db)
    requires db.rows != []
    ensures
      var shown, last := Restored(m, db), Last(db.rows);
      && shown.noPoll && shown.latest.Some? && shown.latest.value.row == last
      && HealthMeans(shown.health, last.health, last.dbHealth, last.finished)
      && shown.status.lastPollAt == Some(last.finished) && shown.status.lastPollId == last.poll.id
      && (if LatestOk(db.rows).Some? then
            && shown.previous.Some? && shown.previous.value.row == LatestOk(db.rows).value
            && shown.status.lastSuccessAt == Some(LatestOk(db.rows).value.finished)
            && shown.status.lastSuccessId == LatestOk(db.rows).value.poll.id
          else
            && shown.previous == m.previous && shown.status.lastSuccessAt == m.status.lastSuccessAt
            && shown.status.lastSuccessId == m.status.lastSuccessId)
      && (shown.status.lastFailedAt ==
          if LatestFailed(db.rows).Some? then Some(LatestFailed(db.rows).value.finished) else m.status.lastFailedAt)
      && (if last.status == Failed then
            && shown.status.summary == last.summary
            && shown.status.failures == if FailedSuffix(db.rows) > 100 then 100 else FailedSuffix(db.rows)
          else shown.status.summary == m.status.summary && shown.status.failures == m.status.failures)
  {
    hide LatestOk, LatestFailed, FailedSuffix, HealthMeans, HealthOf, RunAt;
    var last := Last(db.rows);
    HealthIsShown(last.health, last.dbHealth, last.finished);
  }

  /** The reads of a restore, in their order; without a stored poll only the first is made. */
  function ReadsMade(db: Db, history: Reads): seq<Call> {
    if db.rows == [] then [history.latest] else [history.latest, history.ok, history.trailing, history.failed]
  }

  /** A restore whose first failing read is this one reports it, and only stops polling; without one nothing fails. */
  lemma {:induction false} FailedReadIsShown(m: State, db: Db, history: Reads)
    ensures
      var calls, after := ReadsMade(db, history), Enabled(m, db, history);
      && after.noPoll
      && (ReadError(db, history).None? <==> forall i :: 0 <= i < |calls| ==> calls[i].Works?)
      && (forall i :: 0 <= i < |calls| && calls[i].Fails? && (forall j :: 0 <= j < i ==> calls[j].Works?) ==>
                        ReadError(db, history) == Some(calls[i].cause))
      && (ReadError(db, history).Some? || db.rows == [] ==>
            && after.status == m.status && after.latest == m.latest && after.previous == m.previous
            && after.health == m.health)
  {
    var calls := ReadsMade(db, history);
    assert calls[0] == history.latest;
    if db.rows != [] {
      hide Restored;
      assert calls[1] == history.ok && calls[2] == history.trailing && calls[3] == history.failed;
    }
  }
}
