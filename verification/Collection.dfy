/** The normalized result of one collection, shared by the collectors, the monitor and the store. */
module Collection {
  import opened Common
  import opened Polls

  datatype Severity = Warning | Error

  datatype Event = Event(severity: Severity, kind: string, metricKey: string, message: string)

  datatype CollectionResult = CollectionResult(
    continuityBreak: bool,
    source: string,
    started: nat,
    finished: int,
    health: string,
    dbHealth: string,
    processStart: Option<int>,
    samples: map<Key, Sample>,
    events: seq<Event>)

  predicate HasErrorEvent(events: seq<Event>) {
    exists i :: 0 <= i < |events| && events[i].severity == Error
  }

  /** A collection as the monitor sees it: a result unless the collector returned none, and an error or not. */
  datatype Attempt = Attempt(result: Option<CollectionResult>, err: Option<string>)
}
