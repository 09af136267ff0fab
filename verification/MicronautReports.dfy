/** What a Micronaut collection reports, told from the two answers and what is remembered of the process. */
module MicronautReports {
  import opened Common
  import opened Polls
  import opened Collection
  import opened Micronaut

  /** The metrics are good and name another process start than the one remembered. */
  predicate StartChanged(s: State, i: Input) {
    i.metrics.Evaluated? && i.metrics.start.Some? && s.start.Some? && i.metrics.start.value != s.start.value
  }

  /** Health is asked for unless it is known to be absent from this very process. */
  predicate Asked(s: State, i: Input) {
    i.hasClient && (s.capability != Absent || StartChanged(s, i))
  }

  /** A missing endpoint is no fault if it may be missing, the metrics are good, and this process was never heard. */
  predicate Forgiven(s: State, i: Input) {
    i.answer.NotFound? && i.notFoundOptional && i.metrics.Evaluated? && (s.capability == Unknown || StartChanged(s, i))
  }

  predicate IsWarning(e: Event, kind: string, message: string) {
    e.severity == Warning && e.kind == kind && e.metricKey == "" && e.message == message
  }

  /** The health half: at most one warning, and the two statuses only from an endpoint that answered. */
  ghost predicate HealthReported(s: State, i: Input, health: string, database: string, warnings: seq<Event>) {
    if Asked(s, i) && i.answer.Reported? then
      && health == i.answer.status && database == i.answer.database
      && (if i.answer.warning == "" then warnings == []
          else |warnings| == 1 && IsWarning(warnings[0], "health_partial", i.answer.warning))
    else
      && health == "" && database == ""
      && (if Asked(s, i) && !Forgiven(s, i) then
            |warnings| == 1 && IsWarning(warnings[0], "health_fetch_failed", i.answer.message)
          else warnings == [])
  }

  /** The metrics half: all that was evaluated, or nothing but one error that says what went wrong. */
  ghost predicate MetricsReported(m: Metrics, samples: map<Key, Sample>, start: Option<int>, events: seq<Event>) {
    if m.Evaluated? then samples == m.samples && start == m.start && events == m.events
    else
      && samples == map[] && start.None?
      && |events| == 1 && events[0].severity == Error && events[0].metricKey == "" && events[0].message == m.message
      && (m.incompatible ==> events[0].kind == "metrics_source_incompatible")
      && (!m.incompatible ==> events[0].kind == "metrics_fetch_failed")
  }

  /** A report is its metrics half followed by its health half; neither touches the other. */
  lemma {:induction false} ReportMeans(s: State, i: Input, started: nat, finished: int)
    ensures
      var r := ResultOf(s, i, started, finished);
      var n := if i.metrics.Evaluated? then |i.metrics.events| else 1;
      && n <= |r.events| && MetricsReported(i.metrics, r.samples, r.processStart, r.events[..n])
      && HealthReported(s, i, r.health, r.dbHealth, r.events[n..])
      && r.started == started && r.finished == finished && r.source == "" && !r.continuityBreak
  {
    hide MetricsReported, HealthReported, WarningsOf, OwnEvents, ResultOf;
    var own, warnings := OwnEvents(i.metrics), WarningsOf(s, i);
    ReportHasHalves(s, i, started, finished);
    MetricsMean(i.metrics);
    WarningsMean(s, i, started, finished);
    assert (own + warnings)[..|own|] == own && (own + warnings)[|own|..] == warnings;
  }

  /** The events of the metrics half. */
  function OwnEvents(m: Metrics): (r: seq<Event>)
    ensures |r| == if m.Evaluated? then |m.events| else 1
  {
    if m.Evaluated? then m.events else [Event(Error, MetricsEvent(m), "", m.message)]
  }

  /** The warnings of the health half. */
  function WarningsOf(s: State, i: Input): seq<Event> {
    if !Probes(s, i) then []
    else
      match i.answer
      case Reported(_, _, warning) => if warning == "" then [] else [WarningEvent("health_partial", warning)]
      case NotFound(message) => if Accepts404(s, i) then [] else [WarningEvent("health_fetch_failed", message)]
      case Broken(message) => [WarningEvent("health_fetch_failed", message)]
  }

  lemma {:induction false} ReportHasHalves(s: State, i: Input, started: nat, finished: int)
    ensures
      var r := ResultOf(s, i, started, finished);
      && r.events == OwnEvents(i.metrics) + WarningsOf(s, i)
      && r.samples == (if i.metrics.Evaluated? then i.metrics.samples else map[]) && r.processStart == StartOf(i)
      && r.started == started && r.finished == finished && r.source == "" && !r.continuityBreak
  {
    hide Probes, Accepts404;
    assert OwnEvents(i.metrics) + [] == OwnEvents(i.metrics);
  }

  lemma {:induction false} MetricsMean(m: Metrics)
    ensures
      var samples := if m.Evaluated? then m.samples else map[];
      MetricsReported(m, samples, if m.Evaluated? then m.start else None, OwnEvents(m))
  {
  }

  lemma {:induction false} WarningsMean(s: State, i: Input, started: nat, finished: int)
    ensures
      var r := ResultOf(s, i, started, finished);
      HealthReported(s, i, r.health, r.dbHealth, WarningsOf(s, i))
  {
    hide Probes, Accepts404, Asked;
    AskedIsProbed(s, i);
  }

  /** What is remembered afterwards: an answer makes health available, a forgiven 404 absent, and a changed start alone
      makes it unknown again. */
  lemma {:induction false} MemoryMeans(s: State, i: Input)
    ensures Step(s, i).capability ==
            if Asked(s, i) && i.answer.Reported? then Available
            else if Asked(s, i) && Forgiven(s, i) then Absent
            else if i.hasClient && StartChanged(s, i) then Unknown
            else s.capability
  {
    AskedIsProbed(s, i);
  }

  lemma {:induction false} AskedIsProbed(s: State, i: Input)
    ensures Probes(s, i) <==> Asked(s, i)
    ensures Asked(s, i) ==> (Accepts404(s, i) <==> Forgiven(s, i))
  {
  }

  /** Unread health is never an error, so that it never fails a poll. */
  lemma {:induction false} HealthNeverFails(s: State, i: Input, started: nat, finished: int)
    ensures HasErrorEvent(ResultOf(s, i, started, finished).events) <==>
            i.metrics.Unusable? || HasErrorEvent(i.metrics.events)
  {
    hide ResultOf;
    ReportMeans(s, i, started, finished);
    var events := ResultOf(s, i, started, finished).events;
    var n := if i.metrics.Evaluated? then |i.metrics.events| else 1;
    assert forall k :: 0 <= k < n ==> events[k] == events[..n][k];
    forall k | n <= k < |events| ensures events[k].severity == Warning {
      assert events[k] == events[n..][k - n];
    }
  }
}
