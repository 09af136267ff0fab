/** The Caddy collector: one host's population per scrape, and the continuity state kept between scrapes. */
module CaddyCollector {
  import opened Common
  import opened Exposition
  import opened Folds
  import opened Polls
  import opened Collection
  import opened CaddyPopulation
  import opened CaddyTotals

  const CADDY_SOURCE := "caddy"

  /** Why a collection failed; `host` is the quoted host name. */
  datatype CollectError =
    | NotConfigured
    | ScrapeFailed(cause: string)
    | SampleRefused(error: PopulationError, host: string)
    | NotObserved(host: string)
    | InvalidPopulation(error: PopulationError)
  {
    function Kind(): string {
      match this
      case NotConfigured => "collector_not_configured"
      case ScrapeFailed(_) => "metrics_fetch_failed"
      case SampleRefused(_, _) => "metrics_fetch_failed"
      case NotObserved(_) => "caddy_http_not_observed"
      case InvalidPopulation(_) => "caddy_population_invalid"
    }

    function Message(): string {
      match this
      case NotConfigured => "Caddy metrics URL, host, and client are required"
      case ScrapeFailed(cause) => "scraping Caddy metrics: " + cause
      case SampleRefused(error, host) => "scraping Caddy metrics: " + PopulationText(error, host)
      case NotObserved(host) =>
        "HTTP metrics not yet observed for Caddy host " + host
            + "; generate traffic and check host/metrics configuration"
      case InvalidPopulation(error) => PopulationText(error, "")
    }
  }

  function PopulationText(error: PopulationError, host: string): string {
    match error
    case MissingLabel(name) => "Caddy HTTP population requires nonempty " + name + " label"
    case InvalidStatusCode => "Caddy HTTP population has invalid status code"
    case AmbiguousServer =>
      "ambiguous Caddy HTTP population: host " + host + " matches multiple subroute servers"
    case InvalidValue(name) => "Caddy HTTP population has invalid " + name + " value"
    case TooManyTuples => "Caddy HTTP population exceeds 256 tuples"
    case DuplicateCount => "duplicate Caddy HTTP count tuple"
    case DuplicateSum => "duplicate Caddy HTTP duration tuple"
    case Unpaired => "Caddy HTTP count and duration label tuples do not match"
    case CountOutOfRange => "Caddy HTTP aggregate count exceeds exact integer range"
    case DurationOverflow => "Caddy HTTP aggregate duration overflows"
  }

  /** What the endpoint delivered: samples in exposition order, then possibly a failure of the scrape itself. */
  datatype Scrape = Scrape(samples: seq<ScrapedSample>, failure: Option<string>)

  datatype Times = Times(started: nat, finished: int)

  /** The fixed settings of a collector; `limit` is the greatest finite number. */
  datatype Settings = Settings(configured: bool, selector: Selector, limit: real)

  datatype Memory = Memory(previous: Option<Tuples>, server: string)

  const FORGOTTEN := Memory(None, "")

  /** The population a scrape yields, if the collection succeeds. */
  ghost function Gathered(settings: Settings, scrape: Scrape): Option<Population> {
    var p := Observed(scrape.samples, settings.selector);
    if settings.configured && p.Some? && scrape.failure.None? && p.value.tuples != map[]
       && Paired(p.value.tuples) && InRange(p.value.tuples, settings.limit)
    then p
    else None
  }

  /** The sample at position i is the first one refused, for this reason. */
  ghost predicate RefusedAt(samples: seq<ScrapedSample>, c: Selector, i: int, e: PopulationError) {
    && 0 <= i < |samples| && Observed(samples[..i], c).Some?
    && AcceptOne(Observed(samples[..i], c).value, samples[i], c) == Failure(e)
  }

  ghost predicate FirstRefusal(samples: seq<ScrapedSample>, c: Selector, e: PopulationError) {
    exists i :: RefusedAt(samples, c, i, e)
  }

  /** What must have happened for a collection to fail with this error. */
  ghost predicate Caused(settings: Settings, scrape: Scrape, err: CollectError) {
    var p := Observed(scrape.samples, settings.selector);
    var quoted := Identity.Quote(settings.selector.host, settings.selector.printable);
    match err
    case NotConfigured => !settings.configured
    case SampleRefused(e, host) =>
      settings.configured && host == quoted && FirstRefusal(scrape.samples, settings.selector, e)
    case ScrapeFailed(cause) => settings.configured && p.Some? && scrape.failure == Some(cause)
    case NotObserved(host) =>
      settings.configured && p.Some? && scrape.failure.None? && p.value.tuples == map[] && host == quoted
    case InvalidPopulation(e) =>
      && settings.configured && p.Some? && scrape.failure.None? && p.value.tuples != map[]
      && Unfit(p.value.tuples, settings.limit, e)
  }

  /** Whether the new population cannot continue the remembered one. */
  predicate Breaks(memory: Memory, p: Population) {
    memory.previous.None? || memory.server != p.server || !GrowsTo(memory.previous.value, p.tuples)
  }

  /** The five stored counters hold the sums over the population's tuples. */
  ghost predicate Carried(samples: map<Key, Sample>, ts: Tuples) {
    && samples.Keys == COUNTER_KEYS
    && forall k :: k in COUNTER_KEYS ==>
                     && samples[k].kind == Counter && samples[k].value == Total(ts, k)
                     && samples[k].units == if k == HttpRequestTimeTotal then "seconds" else "requests"
  }

  function SamplesOf(totals: Counters): map<Key, Sample> {
    map k | k in COUNTER_KEYS ::
      Sample(Counter, totals.Value(k), if k == HttpRequestTimeTotal then "seconds" else "requests")
  }

  /** The population of one scrape while its samples arrive. */
  class PopulationBuilder {
    const selector: Selector
    var server: string
    var tuples: Tuples

    constructor (selector: Selector)
      ensures this.selector == selector && State() == NOBODY
    {
      this.selector := selector;
      server, tuples := "", map[];
    }

    function State(): Population
      reads this
    {
      Population(server, tuples)
    }

    method Accept(sample: ScrapedSample) returns (r: Result<(), PopulationError>)
      modifies this
      ensures match AcceptOne(old(State()), sample, selector)
              case Success(p) => r == Success(()) && State() == p
              case Failure(e) => r == Failure(e) && tuples == old(tuples)
    {
      hide Lookup, HasLabel, StatusCode, MissingSelector, Identity.IdentityKey, ValidValue;
      var isCount := sample.name == COUNT_NAME;
      if !isCount && sample.name != SUM_NAME {
        return Success(());
      }
      if HasLabel(sample.labels, "host") && Lookup(sample.labels, "host") != selector.host {
        return Success(());
      }
      if HasLabel(sample.labels, "handler") && Lookup(sample.labels, "handler") != "subroute" {
        return Success(());
      }
      var missing := FirstMissing(sample.labels);
      if missing.Some? {
        return Failure(MissingLabel(missing.value));
      }
      var code := StatusCode(Lookup(sample.labels, "code"));
      if code.None? {
        return Failure(InvalidStatusCode);
      }
      if server != "" && server != Lookup(sample.labels, "server") {
        return Failure(AmbiguousServer);
      }
      server := Lookup(sample.labels, "server");
      if !ValidValue(sample) {
        return Failure(InvalidValue(sample.name));
      }
      ValidIsFinite(sample);
      var identity := Identity.IdentityKey(sample.labels, selector.printable);
      var tuple := NO_TUPLE;
      if identity in tuples {
        tuple := tuples[identity];
      } else if |tuples| >= MAX_TUPLES {
        return Failure(TooManyTuples);
      }
      tuple := tuple.(code := code.value);
      if isCount {
        if tuple.hasCount {
          return Failure(DuplicateCount);
        }
        tuple := tuple.(count := sample.value.value, hasCount := true);
      } else {
        if tuple.hasSum {
          return Failure(DuplicateSum);
        }
        tuple := tuple.(sum := sample.value.value, hasSum := true);
      }
      tuples := tuples[identity := tuple];
      r := Success(());
    }
  }

  lemma {:induction false} ValidIsFinite(sample: ScrapedSample)
    requires ValidValue(sample)
    ensures sample.value.Finite?
  {
  }

  method FirstMissing(labels: seq<Label>) returns (missing: Option<string>)
    ensures missing == MissingSelector(labels, SELECTORS)
  {
    var i := 0;
    while i < |SELECTORS|
      invariant 0 <= i <= |SELECTORS|
      invariant MissingSelector(labels, SELECTORS[i..]) == MissingSelector(labels, SELECTORS)
    {
      if Lookup(labels, SELECTORS[i]) == "" {
        return Some(SELECTORS[i]);
      }
      assert SELECTORS[i..][1..] == SELECTORS[i + 1..];
      i := i + 1;
    }
    missing := None;
  }

  class Collector {
    const settings: Settings
    var previous: Option<Tuples>
    var server: string

    constructor (settings: Settings)
      ensures this.settings == settings && State() == FORGOTTEN
    {
      this.settings := settings;
      previous, server := None, "";
    }

    function State(): Memory
      reads this
    {
      Memory(previous, server)
    }

    /** A refused collection forgets the baseline; an accepted one replaces it and reports whether it continued it. */
    method Collect(scrape: Scrape, times: Times) returns (result: CollectionResult, err: Option<CollectError>)
      requires Parsed(scrape.samples) && settings.limit >= 0.0
      modifies this
      ensures Reports(result, err, times, Gathered(settings, scrape), old(State()))
      ensures match Gathered(settings, scrape)
              case None => State() == FORGOTTEN
              case Some(p) => State() == Memory(Some(p.tuples), p.server)
      ensures err.Some? ==> Caused(settings, scrape, err.value)
    {
      result := CollectionResult(false, CADDY_SOURCE, times.started, times.finished, "", "", None, map[], []);
      var gathered := Gather(scrape);
      if gathered.Failure? {
        previous, server := None, "";
        result := result.(events := [Event(Error, gathered.error.Kind(), "", gathered.error.Message())]);
        return result, Some(gathered.error);
      }
      var (p, totals) := gathered.value;
      var broken := previous.None? || server != p.server;
      if previous.Some? {
        var dropped := HasDropped(previous.value, p.tuples);
        broken := broken || dropped;
      }
      result := result.(continuityBreak := broken, samples := SamplesOf(totals));
      previous, server := Some(p.tuples), p.server;
      err := None;
    }

    /** Scrapes the population and adds it up. */
    method Gather(scrape: Scrape) returns (r: Result<(Population, Counters), CollectError>)
      requires Parsed(scrape.samples) && settings.limit >= 0.0
      ensures unchanged(this)
      ensures r.Success? ==> Gathered(settings, scrape) == Some(r.value.0) && Sums(r.value.1, r.value.0.tuples)
      ensures r.Failure? ==> Gathered(settings, scrape).None? && Caused(settings, scrape, r.error)
    {
      var quoted := Identity.Quote(settings.selector.host, settings.selector.printable);
      if !settings.configured {
        return Failure(NotConfigured);
      }
      var population := new PopulationBuilder(settings.selector);
      var i := 0;
      while i < |scrape.samples|
        invariant 0 <= i <= |scrape.samples|
        invariant Observed(scrape.samples[..i], settings.selector) == Some(population.State())
      {
        var accepted := population.Accept(scrape.samples[i]);
        ObservedNext(scrape.samples, settings.selector, i);
        if accepted.Failure? {
          RefusedForGood(scrape.samples, settings.selector, i + 1);
          assert RefusedAt(scrape.samples, settings.selector, i, accepted.error);
          return Failure(SampleRefused(accepted.error, quoted));
        }
        i := i + 1;
      }
      WholePrefix(scrape.samples);
      if scrape.failure.Some? {
        return Failure(ScrapeFailed(scrape.failure.value));
      }
      var p := population.State();
      if p.tuples == map[] {
        return Failure(NotObserved(quoted));
      }
      ObservedIsGenuine(scrape.samples, settings.selector);
      var totals := Totals(p.tuples, settings.limit);
      if totals.Failure? {
        return Failure(InvalidPopulation(totals.error));
      }
      r := Success((p, totals.value));
    }
  }

  /** Whether some remembered tuple vanished or dropped. */
  method HasDropped(old': Tuples, new': Tuples) returns (dropped: bool)
    ensures dropped <==> !GrowsTo(old', new')
  {
    dropped := false;
    var rest := old';
    while rest != map[]
      invariant forall key :: key in rest ==> key in old' && rest[key] == old'[key]
      invariant dropped <==>
                exists key :: key in old' && key !in rest
                              && !(key in new' && old'[key].count <= new'[key].count && old'[key].sum <= new'[key].sum)
      decreases rest
    {
      var key :| key in rest;
      var before := rest[key];
      if key !in new' || new'[key].count < before.count || new'[key].sum < before.sum {
        dropped := true;
      }
      rest := rest - {key};
    }
  }

  /** What the caller of a collection is told. */
  ghost predicate Reports(result: CollectionResult, err: Option<CollectError>, times: Times,
                          gathered: Option<Population>,
                          before: Memory)
  {
    && result.source == CADDY_SOURCE && result.started == times.started && result.finished == times.finished
    && result.health == "" && result.dbHealth == "" && result.processStart == None
    && (err.Some? <==> gathered.None?)
    && match gathered
       case None =>
         && result.samples == map[] && !result.continuityBreak
         && result.events == [Event(Error, err.value.Kind(), "", err.value.Message())]
       case Some(p) =>
         && result.events == [] && Carried(result.samples, p.tuples)
         && (result.continuityBreak <==> Breaks(before, p))
  }

  lemma {:induction false} ObservedNext(samples: seq<ScrapedSample>, c: Selector, i: nat)
    requires i < |samples|
    ensures Observed(samples[..i + 1], c) == Step(Observed(samples[..i], c), samples[i], c)
  {
    assert samples[..i + 1] == samples[..i] + [samples[i]];
    FoldOfAppend(Stepper(c), Some(NOBODY), samples[..i], samples[i]);
  }

  /** A refused sample spoils the rest of the scrape. */
  lemma {:induction false} RefusedForGood(samples: seq<ScrapedSample>, c: Selector, i: nat)
    requires i <= |samples| && Observed(samples[..i], c).None?
    ensures Observed(samples, c).None?
    decreases |samples| - i
  {
    if i < |samples| {
      ObservedNext(samples, c, i);
      RefusedForGood(samples, c, i + 1);
    } else {
      WholePrefix(samples);
    }
  }
}
