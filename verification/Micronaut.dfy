/** The Micronaut collector's health capability: when a health endpoint is probed, and when its absence is accepted. */
module Micronaut {
  import opened Common
  import opened Polls
  import opened Collection

  datatype Capability = Unknown | Available | Absent

  /** What the metrics endpoint gave: samples, warnings and perhaps a process start, or a failure. */
  datatype Metrics =
    | Evaluated(samples: map<Key, Sample>, events: seq<Event>, start: Option<int>)
    | Unusable(incompatible: bool, message: string)

  /** What the health endpoint would answer if it were asked. */
  datatype Answer =
    | Reported(status: string, database: string, warning: string)
    | NotFound(message: string)
    | Broken(message: string)

  /** One collection; without a health client no health is ever read. */
  datatype Input = Input(metrics: Metrics, hasClient: bool, notFoundOptional: bool, answer: Answer)

  datatype State = State(capability: Capability, start: Option<int>)

  const NEW := State(Unknown, None)

  function StartOf(i: Input): Option<int> {
    if i.metrics.Evaluated? then i.metrics.start else None
  }

  /** A process start that differs from the remembered one. */
  predicate Restarts(s: State, i: Input) {
    i.hasClient && StartOf(i).Some? && s.start.Some? && StartOf(i) != s.start
  }

  /** The state in which the probe decision is made. */
  function Noticed(s: State, i: Input): State {
    State(if Restarts(s, i) then Unknown else s.capability, if StartOf(i).Some? then StartOf(i) else s.start)
  }

  predicate Probes(s: State, i: Input) {
    i.hasClient && Noticed(s, i).capability != Absent
  }

  /** A missing endpoint is accepted if it is optional, nothing is known about it, and the metrics were good. */
  predicate Accepts404(s: State, i: Input) {
    Probes(s, i) && i.answer.NotFound? && i.notFoundOptional && Noticed(s, i).capability == Unknown
        && i.metrics.Evaluated?
  }

  function Step(s: State, i: Input): State {
    if !i.hasClient then s
    else if !Probes(s, i) then Noticed(s, i)
    else if i.answer.Reported? then Noticed(s, i).(capability := Available)
    else if Accepts404(s, i) then Noticed(s, i).(capability := Absent)
    else Noticed(s, i)
  }

  /** Whether the collection warns that health could not be read. */
  predicate Warns(s: State, i: Input) {
    Probes(s, i) && !i.answer.Reported? && !Accepts404(s, i)
  }

  function WarningEvent(kind: string, message: string): Event {
    Event(Warning, kind, "", message)
  }

  function ResultOf(s: State, i: Input, started: nat, finished: int): CollectionResult {
    var base := CollectionResult(false, "", started, finished, "", "", StartOf(i),
                                 if i.metrics.Evaluated? then i.metrics.samples else map[],
                                 if i.metrics.Evaluated? then i.metrics.events
                                 else [Event(Error, MetricsEvent(i.metrics), "", i.metrics.message)]);
    if !Probes(s, i) then base
    else
      match i.answer
      case Reported(status, database, warning) =>
        base.(health := status, dbHealth := database,
              events := if warning == "" then base.events else base.events + [WarningEvent("health_partial", warning)])
      case NotFound(message) =>
        if Accepts404(s, i) then base else base.(events := base.events + [WarningEvent("health_fetch_failed", message)])
      case Broken(message) => base.(events := base.events + [WarningEvent("health_fetch_failed", message)])
  }

  function MetricsEvent(m: Metrics): string
    requires m.Unusable?
  {
    if m.incompatible then "metrics_source_incompatible" else "metrics_fetch_failed"
  }

  class Collector {
    var capability: Capability
    var processStart: Option<int>

    constructor ()
      ensures View() == NEW
    {
      capability, processStart := Unknown, None;
    }

    function View(): State
      reads this
    {
      State(capability, processStart)
    }

    method ShouldProbeHealth(start: Option<int>) returns (probe: bool)
      modifies this
      ensures processStart == if start.Some? then start else old(processStart)
      ensures capability == if start.Some? && old(processStart).Some? && start != old(processStart) then Unknown
                            else old(capability)
      ensures probe <==> capability != Absent
    {
      if start.Some? {
        if processStart.Some? && start.value != processStart.value {
          capability := Unknown;
        }
        processStart := start;
      }
      if capability == Absent {
        return false;
      }
      probe := true;
    }

    method MarkHealth(next: Capability, start: Option<int>)
      modifies this
      ensures capability == next && processStart == if start.Some? then start else old(processStart)
    {
      capability := next;
      if start.Some? {
        processStart := start;
      }
    }

    method Collect(i: Input, started: nat, finished: int) returns (result: CollectionResult, err: Option<string>)
      modifies this
      ensures View() == Step(old(View()), i)
      ensures result == ResultOf(old(View()), i, started, finished)
      ensures err == if i.metrics.Unusable? then Some(i.metrics.message) else None
    {
      result := CollectionResult(false, "", started, finished, "", "", None, map[], []);
      err := None;
      match i.metrics {
        case Unusable(incompatible, message) =>
          err := Some(message);
          if incompatible {
            result := result.(events := [Event(Error, "metrics_source_incompatible", "", message)]);
          } else {
            result := result.(events := [Event(Error, "metrics_fetch_failed", "", message)]);
          }
        case Evaluated(samples, events, start) =>
          result := result.(samples := samples, events := events, processStart := start);
      }
      if !i.hasClient {
        return;
      }
      var probe := ShouldProbeHealth(result.processStart);
      if !probe {
        return;
      }
      match i.answer {
        case Reported(status, database, warning) =>
          result := result.(health := status, dbHealth := database);
          if warning != "" {
            result := result.(events := result.events + [WarningEvent("health_partial", warning)]);
          }
          MarkHealth(Available, result.processStart);
        case NotFound(message) =>
          if i.notFoundOptional && capability == Unknown && err.None? {
            MarkHealth(Absent, result.processStart);
          } else {
            result := result.(events := result.events + [WarningEvent("health_fetch_failed", message)]);
          }
        case Broken(message) =>
          result := result.(events := result.events + [WarningEvent("health_fetch_failed", message)]);
      }
    }
  }

  // ---------- Runs of collections ----------

  function After(inputs: seq<Input>): State {
    if inputs == [] then NEW else Step(After(Init(inputs)), Last(inputs))
  }

  /** The last process start that any collection with a health client reported. */
  function LastStart(inputs: seq<Input>): Option<int> {
    if inputs == [] then None
    else if Last(inputs).hasClient && StartOf(Last(inputs)).Some? then StartOf(Last(inputs))
    else LastStart(Init(inputs))
  }

  /** The remembered start is the last one reported; failed scrapes never erase it. */
  lemma {:induction false} RemembersLastStart(inputs: seq<Input>)
    ensures After(inputs).start == LastStart(inputs)
  {
    if inputs != [] {
      RemembersLastStart(Init(inputs));
    }
  }

  /** Some collection reports a process start that differs from the last one reported before it. */
  predicate RestartAt(inputs: seq<Input>, i: nat)
    requires i < |inputs|
  {
    Restarts(After(inputs[..i]), inputs[i])
  }

  /** What a collection settles about the endpoint if nothing was settled before: it answers, or its 404 is accepted. */
  function Settles(i: Input): Capability {
    if !i.hasClient then Unknown
    else if i.answer.Reported? then Available
    else if i.answer.NotFound? && i.notFoundOptional && i.metrics.Evaluated? then Absent
    else Unknown
  }

  /** The first collection from position i on that settles something. */
  function FirstSettled(inputs: seq<Input>): Capability {
    if inputs == [] then Unknown
    else if FirstSettled(Init(inputs)) != Unknown then FirstSettled(Init(inputs))
    else Settles(Last(inputs))
  }

  /** Where the current process began: after the last observed restart. */
  function Epoch(inputs: seq<Input>): (e: nat)
    ensures e <= |inputs|
  {
    if inputs == [] then 0
    else if Restarts(After(Init(inputs)), Last(inputs)) then |inputs| - 1
    else Epoch(Init(inputs))
  }

  /** The capability is what the first conclusive answer since the last observed restart said, and nothing later changes
      it: an available endpoint never turns absent, and an absent one is not asked again. */
  lemma {:induction false} CapabilityIsFirstAnswer(inputs: seq<Input>)
    ensures After(inputs).capability == FirstSettled(inputs[Epoch(inputs)..])
  {
    if inputs != [] {
      var init, last := Init(inputs), Last(inputs);
      CapabilityIsFirstAnswer(init);
      var e := Epoch(inputs);
      if e == |inputs| - 1 && Restarts(After(init), last) {
        assert inputs[e..] == [last];
        assert FirstSettled([]) == Unknown && Init([last]) == [];
      } else {
        assert Init(inputs[e..]) == init[e..] && Last(inputs[e..]) == last;
      }
    }
  }

  lemma {:induction false} EpochMeaning(inputs: seq<Input>)
    ensures forall i :: Epoch(inputs) < i < |inputs| ==> !RestartAt(inputs, i)
    ensures Epoch(inputs) > 0 ==> Epoch(inputs) < |inputs| && RestartAt(inputs, Epoch(inputs))
  {
    hide Restarts, After;
    if inputs != [] {
      var init := Init(inputs);
      EpochMeaning(init);
      WholePrefix(init);
      forall i | 0 <= i < |init| ensures RestartAt(inputs, i) == RestartAt(init, i) {
        assert init[..i] == inputs[..i];
      }
      assert inputs[..|inputs| - 1] == init;
    }
  }

  /** The position of the first collection that settled something. */
  lemma {:induction false} SettledAt(inputs: seq<Input>) returns (j: nat)
    requires FirstSettled(inputs) != Unknown
    ensures j < |inputs| && Settles(inputs[j]) == FirstSettled(inputs) && FirstSettled(inputs[..j]) == Unknown
  {
    var init := Init(inputs);
    if FirstSettled(init) != Unknown {
      j := SettledAt(init);
      assert init[..j] == inputs[..j];
    } else {
      j := |inputs| - 1;
    }
  }

  /** A probe is skipped only if, since the last observed restart, a 404 was accepted as optional with good metrics. */
  lemma {:induction false} SkipsOnlyAfterAccepted404(inputs: seq<Input>, i: nat) returns (j: nat)
    requires i < |inputs| && inputs[i].hasClient && !Probes(After(inputs[..i]), inputs[i])
    ensures j < i && Accepts404(After(inputs[..j]), inputs[j])
    ensures forall k :: j < k <= i ==> !RestartAt(inputs, k)
  {
    var before := inputs[..i];
    CapabilityIsFirstAnswer(before);
    EpochMeaning(before);
    var e := Epoch(before);
    var offset := SettledAt(before[e..]);
    j := e + offset;
    assert before[e..][offset] == inputs[j];
    SliceOfSlice(before, e, offset);
    UnsettledBefore(inputs, before, e, j);
    forall k | j < k <= i ensures !RestartAt(inputs, k) {
      if k < i {
        assert before[..k] == inputs[..k];
        assert !RestartAt(before, k);
      }
    }
  }

  lemma {:induction false} SliceOfSlice<T>(s: seq<T>, e: nat, n: nat)
    requires e + n <= |s|
    ensures s[e..][..n] == s[e..e + n]
  {
  }

  /** Until the settling answer of an epoch nothing is known. */
  lemma {:induction false} UnsettledBefore(inputs: seq<Input>, before: seq<Input>, e: nat, j: nat)
    requires before <= inputs && e == Epoch(before) <= j < |before| && FirstSettled(before[e..j]) == Unknown
    requires Settles(inputs[j]) == Absent
    ensures Accepts404(After(inputs[..j]), inputs[j])
  {
    hide After, FirstSettled;
    assert before[..j] == inputs[..j] && before[j] == inputs[j];
    if j > e {
      EpochOfPrefix(before, j);
      CapabilityIsFirstAnswer(before[..j]);
      assert before[..j][e..] == before[e..j];
    } else if e == 0 {
      assert before[..0] == [];
      NothingKnownYet();
    } else {
      EpochMeaning(before);
      assert RestartAt(before, e);
    }
  }

  lemma {:induction false} NothingKnownYet()
    ensures After([]) == NEW
  {
  }

  lemma {:induction false} EpochOfPrefix(inputs: seq<Input>, j: nat)
    requires Epoch(inputs) < j <= |inputs|
    ensures Epoch(inputs[..j]) == Epoch(inputs)
    decreases |inputs| - j
  {
    hide Restarts, After;
    if j < |inputs| {
      EpochOfPrefix(inputs, j + 1);
      InitOfPrefix(inputs, j);
    } else {
      WholePrefix(inputs);
    }
  }

  /** A known-available endpoint stays available until a restart is observed, and while it does every failed read of it
      is reported with a warning, a 404 included. */
  lemma {:induction false} AvailableNeverTurnsAbsentSilently(inputs: seq<Input>, j: nat, k: nat)
    requires j <= k < |inputs| && After(inputs[..j]).capability == Available
    requires forall i :: j <= i <= k ==> !RestartAt(inputs, i)
    ensures After(inputs[..k + 1]).capability == Available
    ensures inputs[k].hasClient && !inputs[k].answer.Reported? ==> Warns(After(inputs[..k]), inputs[k])
    decreases k
  {
    InitOfPrefix(inputs, k);
    if k > j {
      AvailableNeverTurnsAbsentSilently(inputs, j, k - 1);
    }
    assert !RestartAt(inputs, k);
  }
}
