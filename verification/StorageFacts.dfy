/** What the stored rows and their reads are, told row by row. */
module StorageFacts {
  import opened Common
  import opened Polls
  import opened Collection
  import opened Database

  // ---------- What a poll is stored as ----------

  function ErrorMessages(events: seq<Event>): seq<string> {
    if events == [] then []
    else (if events[0].severity == Error then [events[0].message] else []) + ErrorMessages(events[1..])
  }

  /** strings.Join(messages, "; ") */
  function Joined(messages: seq<string>): string {
    if messages == [] then ""
    else if |messages| == 1 then messages[0]
    else messages[0] + "; " + Joined(messages[1..])
  }

  lemma {:induction false} MessagesAppend(events: seq<Event>, e: Event)
    ensures ErrorMessages(events + [e]) == ErrorMessages(events) + if e.severity == Error then [e.message] else []
  {
    if events == [] {
      assert events + [e] == [e] && [e][1..] == [];
    } else {
      assert (events + [e])[1..] == events[1..] + [e];
      MessagesAppend(events[1..], e);
    }
  }

  lemma {:induction false} JoinedAppend(messages: seq<string>, m: string)
    ensures Joined(messages + [m]) == if messages == [] then m else Joined(messages) + "; " + m
  {
    if |messages| > 0 {
      assert (messages + [m])[1..] == messages[1..] + [m];
      JoinedAppend(messages[1..], m);
      if |messages| > 1 {
        assert messages[0] + "; " + (Joined(messages[1..]) + "; " + m) ==
               messages[0] + "; " + Joined(messages[1..]) + "; " + m;
      }
    }
  }

  /** A poll failed exactly if it has an error, and its summary joins the error messages in their order. */
  lemma {:induction false} SummaryJoinsErrors(events: seq<Event>)
    ensures ErrorSummary(events) == Joined(ErrorMessages(events))
    ensures StatusOf(events) == Failed <==> ErrorMessages(events) != []
  {
    hide Joined;
    if events == [] {
      assert Joined([]) == "" by { NothingJoined(); }
    } else {
      var init, e := Init(events), Last(events);
      assert events == init + [e];
      SummaryJoinsErrors(init);
      MessagesAppend(init, e);
      ErrorEventNext(init, e);
      assert ErrorMessages(init) + [] == ErrorMessages(init);
      JoinedAppend(ErrorMessages(init), e.message);
    }
  }

  lemma {:induction false} NothingJoined()
    ensures Joined([]) == ""
  {
  }

  /** A stored poll has the times, samples, health and events of its collection. */
  lemma {:induction false} RowMeans(id: int, run: Option<int>, result: CollectionResult)
    ensures
      var row := RowOf(id, run, result);
      && row.poll.id == id && row.poll.run == run && row.poll.ts == result.started && row.finished == result.finished
      && row.poll.samples == result.samples && row.events == result.events
      && row.health == result.health && row.dbHealth == result.dbHealth && row.source == result.source
      && row.summary == Joined(ErrorMessages(result.events))
      && (row.status == Ok <==> ErrorMessages(result.events) == [])
  {
    SummaryJoinsErrors(result.events);
  }

  /** A poll is stored once, and the rows stay in time order. */
  lemma {:induction false} InsertedMeans(rows: seq<PollRow>, row: PollRow)
    requires InTimeOrder(rows) && forall r :: r in rows ==> r.poll.id != row.poll.id
    ensures multiset(Inserted(rows, row)) == multiset(rows) + multiset{row}
    ensures InTimeOrder(Inserted(rows, row))
  {
    hide Ordered;
    if rows == [] || Before(Last(rows).poll, row.poll) {
      InsertedAtEnd(rows, row);
    } else {
      var init, last := Init(rows), Last(rows);
      assert rows == init + [last];
      InitInOrder(rows);
      forall r | r in init ensures r.poll.id != row.poll.id && Before(r.poll, last.poll) && r.poll.id != last.poll.id {
        assert r in rows;
      }
      InsertedMeans(init, row);
      AppendedInOrder(Inserted(init, row), init, row, last);
    }
  }

  lemma {:induction false} InitInOrder(rows: seq<PollRow>)
    requires InTimeOrder(rows) && rows != []
    ensures InTimeOrder(Init(rows))
    ensures forall r :: r in Init(rows) ==> Before(r.poll, Last(rows).poll) && r.poll.id != Last(rows).poll.id
  {
    var ps := PollsOf(rows);
    forall i, j | 0 <= i < j < |rows| ensures Before(rows[i].poll, rows[j].poll) && rows[i].poll.id != rows[j].poll.id {
      assert ps[i] == rows[i].poll && ps[j] == rows[j].poll;
    }
    assert forall i :: 0 <= i < |Init(rows)| ==> PollsOf(Init(rows))[i] == rows[i].poll;
  }

  lemma {:induction false} InsertedAtEnd(rows: seq<PollRow>, row: PollRow)
    requires InTimeOrder(rows) && (rows == [] || Before(Last(rows).poll, row.poll))
    requires forall r :: r in rows ==> r.poll.id != row.poll.id
    ensures InTimeOrder(rows + [row])
  {
    var all, ps := rows + [row], PollsOf(rows);
    forall i, j | 0 <= i < j < |all| ensures Before(all[i].poll, all[j].poll) && all[i].poll.id != all[j].poll.id {
      assert ps[i] == rows[i].poll && rows[i] in rows;
      if j < |rows| {
        assert ps[j] == rows[j].poll;
      } else if i < |rows| - 1 {
        assert Before(ps[i], ps[|rows| - 1]) && ps[|rows| - 1] == Last(rows).poll;
      }
    }
    assert forall i :: 0 <= i < |all| ==> PollsOf(all)[i] == all[i].poll;
  }

  lemma {:induction false} AppendedInOrder(rows: seq<PollRow>, init: seq<PollRow>, row: PollRow, last: PollRow)
    requires InTimeOrder(rows) && multiset(rows) == multiset(init) + multiset{row}
    requires !Before(last.poll, row.poll) && last.poll.id != row.poll.id
    requires forall r :: r in init ==> Before(r.poll, last.poll) && r.poll.id != last.poll.id
    ensures InTimeOrder(rows + [last])
  {
    forall r | r in rows ensures Before(r.poll, last.poll) && r.poll.id != last.poll.id {
      assert r in multiset(rows);
    }
    if rows != [] {
      assert Last(rows) in rows;
    }
    InsertedAtEnd(rows, last);
  }

  // ---------- Reads ----------

  /** The last row with this status. */
  ghost predicate IsLatest(found: Option<PollRow>, rows: seq<PollRow>, status: PollStatus) {
    if found.None? then forall r :: r in rows ==> r.status != status
    else
      exists i :: 0 <= i < |rows| && rows[i] == found.value && found.value.status == status
                  && forall j :: i < j < |rows| ==> rows[j].status != status
  }

  lemma {:induction false} LatestMeans(rows: seq<PollRow>)
    ensures IsLatest(LatestOk(rows), rows, Ok) && IsLatest(LatestFailed(rows), rows, Failed)
  {
    if rows != [] {
      LatestMeans(Init(rows));
      assert rows == Init(rows) + [Last(rows)];
      LatestStays(LatestOk(Init(rows)), Init(rows), Last(rows), Ok);
      LatestStays(LatestFailed(Init(rows)), Init(rows), Last(rows), Failed);
      assert rows[|rows| - 1] == Last(rows);
    }
  }

  lemma {:induction false} LatestStays(found: Option<PollRow>, rows: seq<PollRow>, row: PollRow, status: PollStatus)
    requires IsLatest(found, rows, status)
    ensures row.status != status ==> IsLatest(found, rows + [row], status)
  {
    if found.Some? && row.status != status {
      var i :| 0 <= i < |rows| && rows[i] == found.value && found.value.status == status
               && forall j :: i < j < |rows| ==> rows[j].status != status;
      assert (rows + [row])[i] == rows[i];
    }
  }

  /** The failed polls at the end: as many as there are after the last successful one. */
  lemma {:induction false} SuffixMeans(rows: seq<PollRow>)
    ensures
      var n := FailedSuffix(rows);
      && n <= |rows| && (forall i :: |rows| - n <= i < |rows| ==> rows[i].status == Failed)
      && (n < |rows| ==> rows[|rows| - n - 1].status == Ok)
      && Capped(n) == if n > 100 then 100 else n
  {
    if rows != [] && Last(rows).status != Ok {
      SuffixMeans(Init(rows));
      assert forall i :: 0 <= i < |rows| - 1 ==> rows[i] == Init(rows)[i];
    }
  }

  ghost predicate DistinctRuns(runs: seq<Run>) {
    forall i, j :: 0 <= i < j < |runs| ==> runs[i].id != runs[j].id
  }

  lemma {:induction false} RunAtMeans(runs: seq<Run>, run: Run)
    requires DistinctRuns(runs) && run in runs
    ensures RunAt(runs, run.id) == Some(run)
  {
    var i :| 0 <= i < |runs| && runs[i] == run;
    if i < |runs| - 1 {
      assert runs[i].id != runs[|runs| - 1].id;
      assert Init(runs)[i] == run;
      RunAtMeans(Init(runs), run);
    }
  }

  /** A stored poll is read back with the start of its run. */
  lemma {:induction false} SnapshotMeans(row: PollRow, runs: seq<Run>, run: Run)
    requires DistinctRuns(runs)
    ensures SnapshotOf(row, runs).row == row
    ensures run in runs && row.poll.run == Some(run.id) ==> SnapshotOf(row, runs).processStart == run.start
    ensures row.poll.run.None? ==> SnapshotOf(row, runs).processStart == None
  {
    if run in runs {
      RunAtMeans(runs, run);
    }
  }

  // ---------- Runs ----------

  /** Touching a run moves the time it was last seen, and nothing else. */
  lemma {:induction false} TouchedMeans(runs: seq<Run>, id: int, seenAt: int)
    ensures |Touched(runs, id, seenAt)| == |runs|
    ensures forall i :: 0 <= i < |runs| ==>
                          Touched(runs, id, seenAt)[i] ==
                          if runs[i].id == id then Run(id, runs[i].start, runs[i].firstSeen, seenAt) else runs[i]
  {
    if runs != [] {
      TouchedMeans(Init(runs), id, seenAt);
    }
  }

  /** A run of a known start is seen again under its id; any other start, or none, begins a run first seen then. */
  lemma {:induction false} EnsuredMeans(runs: seq<Run>, start: Option<int>, seenAt: int, newId: int)
    ensures
      var (after, id) := Ensured(runs, start, seenAt, newId);
      if start.Some? && exists run :: run in runs && run.start == start then
        && (exists run :: run in runs && run.start == start && run.id == id)
        && |after| == |runs|
        && forall i :: 0 <= i < |runs| ==>
                         after[i] ==
                         if runs[i].id == id then Run(id, runs[i].start, runs[i].firstSeen, seenAt) else runs[i]
      else id == newId && after == runs + [Run(newId, start, seenAt, seenAt)]
  {
    if start.Some? {
      StartedMeans(runs, start.value);
    }
    TouchedMeans(runs, Ensured(runs, start, seenAt, newId).1, seenAt);
  }

  lemma {:induction false} StartedMeans(runs: seq<Run>, start: int)
    ensures
      var found := RunStartedAt(runs, start);
      if found.Some? then found.value in runs && found.value.start == Some(start)
      else forall run :: run in runs ==> run.start != Some(start)
  {
    if runs != [] {
      StartedMeans(Init(runs), start);
      assert runs == Init(runs) + [Last(runs)];
    }
  }
}
