/** The parser below the Caddy collector: its handler refuses a text exactly if the collector's population does. */
module CaddyScrapes {
  import opened Common
  import opened Exposition
  import opened Folds
  import opened CaddyPopulation
  import opened CaddyCollector
  import Identity
  import Prometheus
  import PrometheusDocuments

  /** Every sample is offered to the population that the samples before it have made. */
  function Accepting(c: Selector): Prometheus.Handler {
    (before, sample) => Answer(Observed(before, c), sample, c)
  }

  function Answer(p: Option<Population>, sample: ScrapedSample, c: Selector): Option<string> {
    if p.None? then None
    else
      match AcceptOne(p.value, sample, c)
      case Success(_) => None
      case Failure(e) => Some(PopulationText(e, Identity.Quote(c.host, c.printable)))
  }

  const TAKING: Prometheus.Handler := (before, sample) => None

  lemma {:induction false} ObservedAppend(samples: seq<ScrapedSample>, s: ScrapedSample, c: Selector)
    ensures Observed(samples + [s], c) == CaddyPopulation.Step(Observed(samples, c), s, c)
  {
    FoldOfAppend(Stepper(c), Some(NOBODY), samples, s);
  }

  lemma {:induction false} AnswerMeans(p: Population, s: ScrapedSample, c: Selector)
    ensures Answer(Some(p), s, c).None? <==> CaddyPopulation.Step(Some(p), s, c).Some?
  {
  }

  /** With the population as its handler a scan succeeds exactly if every line reads and every sample is accepted, and
      then has the same samples. */
  lemma {:induction false} ScanIsObserved(lines: seq<string>, format: Prometheus.Format, limits: Prometheus.Limits,
                                          numbers: Prometheus.Numbers, c: Selector)
    ensures
      var heard := Prometheus.Scanned(lines, format, limits, numbers, Accepting(c));
      var plain := Prometheus.Scanned(lines, format, limits, numbers, TAKING);
      && (heard.Success? <==> plain.Success? && Observed(plain.value.0, c).Some?)
      && (heard.Success? ==> heard == plain)
  {
    hide Prometheus.Meaning, Prometheus.Trim, Observed, Answer, CaddyPopulation.Step;
    if lines == [] {
      NothingObserved(c);
    } else {
      ScanIsObserved(Init(lines), format, limits, numbers, c);
      var plain := Prometheus.Scanned(Init(lines), format, limits, numbers, TAKING);
      var meaning := Prometheus.Meaning(Last(lines), format, limits, numbers);
      if plain.Success? && meaning.Measures? {
        var before := Observed(plain.value.0, c);
        ObservedAppend(plain.value.0, meaning.sample, c);
        if before.Some? {
          AnswerMeans(before.value, meaning.sample, c);
        } else {
          StaysRefused(meaning.sample, c);
        }
      }
    }
  }

  lemma {:induction false} NothingObserved(c: Selector)
    ensures Observed([], c) == Some(NOBODY)
  {
  }

  lemma {:induction false} StaysRefused(s: ScrapedSample, c: Selector)
    ensures CaddyPopulation.Step(None, s, c) == None
  {
  }

  /** A text that parses with this handler is a scrape without failure, fit for the collector, whose population is
      observed; and if every line reads, nothing but a refused sample keeps it from that. */
  lemma {:induction false} ParsedIsObserved(input: Prometheus.Input, format: Prometheus.Format,
                                            limits: Prometheus.Limits, numbers: Prometheus.Numbers, c: Selector)
    ensures
      var heard := Prometheus.Parsed(input, format, limits, numbers, Accepting(c));
      var plain := Prometheus.Parsed(input, format, limits, numbers, TAKING);
      && (heard.Success? <==> plain.Success? && Observed(plain.value, c).Some?)
      && (heard.Success? ==> heard == plain && Parsed(heard.value))
  {
    hide Prometheus.Scanned, Observed, Accepting, TAKING;
    ScanIsObserved(input.lines, format, limits, numbers, c);
    if Prometheus.Scanned(input.lines, format, limits, numbers, Accepting(c)).Success? {
      PrometheusDocuments.ScannedIsBounded(input.lines, format, limits, numbers, Accepting(c));
    }
  }
}
