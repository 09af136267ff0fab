/** Which restarts are announced: the events of a stored poll, told from starts and samples. */
module MonitorEvents {
  import opened Common
  import opened Polls
  import opened Collection
  import opened Database
  import opened Monitor
  import opened MonitorRuns

  /** A value that both polls report and that is lower in the later one. */
  predicate Lower(before: map<Key, Sample>, now: map<Key, Sample>, k: Key) {
    k in before && k in now && before[k].value > now[k].value
  }

  /** The first sign of a restart, if there is any. */
  function Cause(known: Option<int>, reported: Option<int>, before: map<Key, Sample>, now: map<Key, Sample>,
                 failed: bool): Option<string>
  {
    var requests, time := Lower(before, now, HttpRequestsTotal), Lower(before, now, HttpRequestTimeTotal);
    if known.Some? && reported.Some? && known != reported then Some("process.start.time changed")
    else if Lower(before, now, OtherKey("process_uptime")) then Some("process uptime decreased")
    else if requests && time then Some("core cumulative counters decreased")
    else if failed && (requests || time) then Some("poll failure followed by lower cumulative counter")
    else None
  }

  function Warned(events: seq<Event>, cause: Option<string>): seq<Event> {
    if cause.None? then events else events + [Event(Warning, "restart_detected", "", cause.value)]
  }

  lemma {:induction false} CauseIsAnnounced(m: State, result: CollectionResult, id: int, run: int)
    requires result.source != "caddy" && m.previous.Some? && m.previous.value.row.poll.run.Some?
    ensures
      var cause := Cause(m.previous.value.processStart, result.processStart, m.previous.value.row.poll.samples,
                         result.samples, m.status.failures > 0);
      && RowOf(id, Some(run), Announced(result.(processStart := StartOf(result)), VerdictOf(m, result))).events ==
         Warned(result.events, cause)
  {
    hide RowOf, AppVerdict, Cause;
    RowKeepsEvents(id, run, Announced(result.(processStart := StartOf(result)), VerdictOf(m, result)));
    VerdictHasCause(m, result);
  }

  /** A restart is given for exactly this cause. */
  lemma {:induction false} VerdictHasCause(m: State, result: CollectionResult)
    requires m.previous.Some? && m.previous.value.row.poll.run.Some?
    ensures
      var verdict := AppVerdict(m, result);
      var cause := Cause(m.previous.value.processStart, result.processStart, m.previous.value.row.poll.samples,
                         result.samples, m.status.failures > 0);
      if verdict.Ensure? then verdict.restart == cause else cause.None?
  {
    hide Lower, Decreased;
    var before, now := m.previous.value.row.poll.samples, result.samples;
    LowerIsDecreased(before, now, UPTIME);
    LowerIsDecreased(before, now, HttpRequestsTotal);
    LowerIsDecreased(before, now, HttpRequestTimeTotal);
  }

  lemma {:induction false} LowerIsDecreased(before: map<Key, Sample>, now: map<Key, Sample>, k: Key)
    ensures Lower(before, now, k) <==> Decreased(before, now, k)
  {
  }

  lemma {:induction false} RowKeepsEvents(id: int, run: int, result: CollectionResult)
    ensures RowOf(id, Some(run), result).events == result.events
  {
  }

  /** The start of a run as the runs table has it. */
  function StartOfRun(runs: seq<Run>, run: Option<int>): Option<int> {
    if run.None? || RunAt(runs, run.value).None? then None else RunAt(runs, run.value).value.start
  }

  lemma {:induction false} SnapshotHasStart(row: PollRow, runs: seq<Run>)
    ensures SnapshotOf(row, runs).row == row && SnapshotOf(row, runs).processStart == StartOfRun(runs, row.poll.run)
  {
  }

  lemma {:induction false} SecondPoll(w0: World, a: Action, middle: seq<Action>, b: Action)
    requires a.Cycle? && b.Cycle? && Sound(w0) && Possible(w0, a) && Healthy(w0, a)
    requires forall c :: c in middle ==> Quiet(c)
    requires
      var w := AfterAll(After(w0, a), middle);
      Sound(w) && Possible(w, b) && Healthy(w, b) && ResultOf(b).source != "caddy"
    ensures
      var w1 := After(w0, a);
      var w := AfterAll(w1, middle);
      && w1.db.rows != [] && After(w, b).db.rows != []
      && Last(After(w, b).db.rows).poll.id == b.calls.newPoll
      && Last(After(w, b).db.rows).events ==
         Warned(ResultOf(b).events,
                Cause(StartOfRun(w1.db.runs, Last(w1.db.rows).poll.run), ResultOf(b).processStart, ResultOf(a).samples,
                      ResultOf(b).samples, Failures(middle) > 0))
  {
    hide Healthy, Possible, After, Quiet, Sound, Assigned, DetectAppRun, RunAt, Cause, Warned, SnapshotOf, RowStored,
         StartOfRun, ResultOf, Failures, AfterAll;
    var w1 := After(w0, a);
    var w := AfterAll(w1, middle);
    var run := HealthyCycle(w0, a);
    InitOfAppend(w0.db.rows, RowStored(w0, a, run));
    SnapshotHasStart(RowStored(w0, a, run), w1.db.runs);
    QuietKeeps(w1, middle);
    var next := HealthyCycle(w, b);
    InitOfAppend(w.db.rows, RowStored(w, b, next));
    StoredEvents(w, b, next);
  }

  lemma {:induction false} StoredEvents(w: World, b: Action, run: int)
    requires b.Cycle? && ResultOf(b).source != "caddy"
    requires w.mon.previous.Some? && w.mon.previous.value.row.poll.run.Some?
    ensures RowStored(w, b, run).poll.id == b.calls.newPoll
    ensures RowStored(w, b, run).events ==
            Warned(ResultOf(b).events,
                   Cause(w.mon.previous.value.processStart, ResultOf(b).processStart,
                         w.mon.previous.value.row.poll.samples, ResultOf(b).samples, w.mon.status.failures > 0))
  {
    hide VerdictOf, Announced, Cause, Warned, RowOf;
    RowIdentity(b.calls.newPoll, run, Announced(ResultOf(b).(processStart := StartOf(ResultOf(b))),
                                                VerdictOf(Deciding(w), ResultOf(b))));
    CauseIsAnnounced(w.mon, ResultOf(b), b.calls.newPoll, run);
  }

  lemma {:induction false} RowIdentity(id: int, run: int, result: CollectionResult)
    ensures RowOf(id, Some(run), result).poll.id == id
  {
  }

  /** Over every life of a target: after a successful poll and nothing but failed collections, the next successful poll
      of an application holds a restart warning exactly if both starts are known and differ, or the uptime is lower, or
      both core counters are, or one of them after a failure; the first of these is its message, and otherwise the
      poll's events are those of its collection. */
  lemma {:induction false} RestartsAreAnnounced(prefix: seq<Action>, a: Action, middle: seq<Action>, b: Action)
    requires PossibleRun(prefix + [a] + middle + [b]) && forall c :: c in middle ==> Quiet(c)
    requires Healthy(Reached(prefix), a) && Healthy(Reached(prefix + [a] + middle), b)
    requires b.Cycle? && ResultOf(b).source != "caddy"
    ensures a.Cycle?
    ensures
      var first, second := Reached(prefix + [a]).db, Reached(prefix + [a] + middle + [b]).db;
      && first.rows != [] && second.rows != [] && Last(second.rows).poll.id == b.calls.newPoll
      && Last(second.rows).events ==
         Warned(ResultOf(b).events,
                Cause(StartOfRun(first.runs, Last(first.rows).poll.run), ResultOf(b).processStart, ResultOf(a).samples,
                      ResultOf(b).samples, Failures(middle) > 0))
  {
    hide Reached, PossibleRun, Possible, Healthy, After, Quiet, Sound, Failures, Cause, Warned, StartOfRun;
    TwoPolls(prefix, a, middle, b);
    HealthyIsCycle(Reached(prefix), a);
    SecondPoll(Reached(prefix), a, middle, b);
  }

  /** A Caddy poll never warns of a restart: its events are those of its collection. */
  lemma {:induction false} CaddyNeverAnnounces(w: World, b: Action)
    requires Sound(w) && Possible(w, b) && Healthy(w, b) && b.Cycle? && ResultOf(b).source == "caddy"
    ensures After(w, b).db.rows != [] && Last(After(w, b).db.rows).events == ResultOf(b).events
  {
    hide Sound, Possible, Healthy, After, DetectAppRun, RunAt, Assigned, RowOf, SnapshotOf;
    var run := HealthyCycle(w, b);
    RowKeepsEvents(b.calls.newPoll, run, Announced(ResultOf(b).(processStart := StartOf(ResultOf(b))),
                                                   VerdictOf(Deciding(w), ResultOf(b))));
  }

  /** The first successful poll of an application announces nothing. */
  lemma {:induction false} FirstNeverAnnounces(w: World, b: Action)
    requires Sound(w) && Possible(w, b) && Healthy(w, b) && b.Cycle?
    requires w.mon.previous.None? && forall r :: r in w.db.rows ==> r.status != Ok
    ensures After(w, b).db.rows != [] && Last(After(w, b).db.rows).events == ResultOf(b).events
  {
    hide Sound, Possible, Healthy, After, DetectAppRun, RunAt, Assigned, RowOf, SnapshotOf, AppVerdict;
    var run := HealthyCycle(w, b);
    LatestOkIsOk(w.db.rows);
    NothingBefore(w.mon, ResultOf(b));
    RowKeepsEvents(b.calls.newPoll, run, Announced(ResultOf(b).(processStart := StartOf(ResultOf(b))),
                                                   VerdictOf(Deciding(w), ResultOf(b))));
  }

  lemma {:induction false} NothingBefore(m: State, result: CollectionResult)
    requires m.previous.None?
    ensures VerdictOf(m, result) == Ensure(None)
  {
  }

  lemma {:induction false} LatestOkIsOk(rows: seq<PollRow>)
    ensures LatestOk(rows).Some? ==> LatestOk(rows).value in rows && LatestOk(rows).value.status == Ok
  {
    if rows != [] {
      LastIsMember(rows);
      LatestOkIsOk(Init(rows));
      forall r | r in Init(rows) ensures r in rows {}
    }
  }
}
