/** What a scrape of a Caddy host is collected as, told from the labels and values that the host exposes. */
module CaddyExposures {
  import opened Common
  import opened Exposition
  import opened Folds
  import opened Identity
  import opened Polls
  import opened Collection
  import opened CaddyPopulation
  import opened CaddyTotals
  import opened CaddyCollector

  // ---------- Which samples are whose ----------

  /** A sample of another metric, of another host or of another handler. */
  ghost predicate Foreign(s: ScrapedSample, host: string) {
    || (s.name != "caddy_http_request_duration_seconds_count" && s.name != "caddy_http_request_duration_seconds_sum")
    || (exists other :: other != host && Label("host", other) in s.labels)
    || (exists other :: other != "subroute" && Label("handler", other) in s.labels)
  }

  /** The three decimal digits of a status code. */
  predicate Spells(text: string, code: int) {
    && |text| == 3 && 100 <= code <= 599
    && text[0] as int == '0' as int + code / 100
    && text[1] as int == '0' as int + code / 10 % 10
    && text[2] as int == '0' as int + code % 10
  }

  /** The labels of a series of this host that one server handled with this status code. */
  ghost predicate Labels(labels: seq<Label>, host: string, server: string, code: int) {
    && DistinctNames(labels)
    && Label("host", host) in labels && Label("handler", "subroute") in labels
    && Label("server", server) in labels && server != ""
    && (exists method' :: method' != "" && Label("method", method') in labels)
    && (exists text :: Spells(text, code) && Label("code", text) in labels)
  }

  /** A duration is a nonnegative number; a count moreover is whole and at most 2^53 - 1. */
  predicate Valid(s: ScrapedSample) {
    && s.value.Finite? && s.value.value >= 0.0
    && (s.name == "caddy_http_request_duration_seconds_count" ==>
          s.value.value == s.value.value.Floor as real && s.value.value <= 9007199254740991.0)
  }

  ghost predicate Own(s: ScrapedSample, host: string) {
    Valid(s) && exists server, code :: Labels(s.labels, host, server, code)
  }

  lemma {:induction false} LabelMeans(labels: seq<Label>, name: string, value: string)
    requires DistinctNames(labels)
    ensures Label(name, value) in labels ==> HasLabel(labels, name) && Lookup(labels, name) == value
    ensures HasLabel(labels, name) ==> Label(name, Lookup(labels, name)) in labels
    ensures !HasLabel(labels, name) ==> Lookup(labels, name) == ""
  {
    if Label(name, value) in labels {
      var i :| 0 <= i < |labels| && labels[i] == Label(name, value);
      LookupFinds(labels, i);
    }
    if HasLabel(labels, name) {
      var i :| 0 <= i < |labels| && labels[i].name == name;
      LookupFinds(labels, i);
      assert labels[i] == Label(name, Lookup(labels, name));
    } else {
      LookupMisses(labels, name);
    }
  }

  /** A named label has one value. */
  lemma {:induction false} OtherValue(labels: seq<Label>, name: string, value: string)
    requires DistinctNames(labels)
    ensures (exists other :: other != value && Label(name, other) in labels) <==>
              HasLabel(labels, name) && Lookup(labels, name) != value
  {
    hide Lookup, HasLabel, DistinctNames;
    LabelMeans(labels, name, value);
    forall other | Label(name, other) in labels ensures HasLabel(labels, name) && Lookup(labels, name) == other {
      LabelMeans(labels, name, other);
    }
  }

  lemma {:induction false} ForeignIsIrrelevant(s: ScrapedSample, host: string)
    requires DistinctNames(s.labels)
    ensures Foreign(s, host) <==> Irrelevant(s, host)
  {
    hide Lookup, HasLabel;
    OtherValue(s.labels, "host", host);
    OtherValue(s.labels, "handler", "subroute");
  }

  lemma {:induction false} SpelledCode(text: string)
    ensures forall code :: Spells(text, code) <==> StatusCode(text) == Some(code)
  {
    hide Spells, StatusCode;
    CodeIsSpelled(text);
    forall code ensures Spells(text, code) <==> StatusCode(text) == Some(code) {
      if Spells(text, code) {
        SpelledIsCode(text, code);
      }
    }
  }

  lemma {:induction false} CodeIsSpelled(text: string)
    ensures StatusCode(text).Some? ==> Spells(text, StatusCode(text).value)
  {
    if StatusCode(text).Some? {
      DecimalPlaces(DigitValue(text[0]).value, DigitValue(text[1]).value, DigitValue(text[2]).value);
    }
  }

  lemma {:induction false} SpelledIsCode(text: string, code: int)
    requires Spells(text, code)
    ensures StatusCode(text) == Some(code)
  {
    assert code == 100 * (code / 100) + 10 * (code / 10 % 10) + code % 10;
  }

  lemma {:induction false} DecimalPlaces(a: nat, b: nat, c: nat)
    requires a < 10 && b < 10 && c < 10
    ensures var n := 100 * a + 10 * b + c; n / 100 == a && n / 10 % 10 == b && n % 10 == c
  {
  }

  lemma {:induction false} SelectorsPresent(labels: seq<Label>)
    ensures MissingSelector(labels, SELECTORS).None? <==>
              && Lookup(labels, "host") != "" && Lookup(labels, "handler") != "" && Lookup(labels, "server") != ""
              && Lookup(labels, "method") != "" && Lookup(labels, "code") != ""
  {
    hide Lookup;
    NextSelector(labels, "code", []);
    NextSelector(labels, "method", ["code"]);
    NextSelector(labels, "server", ["method", "code"]);
    NextSelector(labels, "handler", ["server", "method", "code"]);
    NextSelector(labels, "host", ["handler", "server", "method", "code"]);
    assert SELECTORS == ["host"] + ["handler", "server", "method", "code"];
    assert ["handler", "server", "method", "code"] == ["handler"] + ["server", "method", "code"];
    assert ["server", "method", "code"] == ["server"] + ["method", "code"];
    assert ["method", "code"] == ["method"] + ["code"];
    assert ["code"] == ["code"] + [];
  }

  lemma {:induction false} NextSelector(labels: seq<Label>, name: string, names: seq<string>)
    ensures MissingSelector(labels, [name] + names).None? <==>
              Lookup(labels, name) != "" && MissingSelector(labels, names).None?
    ensures MissingSelector(labels, []).None?
  {
    assert ([name] + names)[1..] == names;
  }

  lemma {:induction false} SameLabels(labels: seq<Label>, host: string, server: string, code: int)
    requires DistinctNames(labels) && host != ""
    requires HasLabel(labels, "host") ==> Lookup(labels, "host") == host
    requires HasLabel(labels, "handler") ==> Lookup(labels, "handler") == "subroute"
    ensures Labels(labels, host, server, code) <==>
              && MissingSelector(labels, SELECTORS).None?
              && Lookup(labels, "server") == server && StatusCode(Lookup(labels, "code")) == Some(code)
  {
    hide Lookup, HasLabel, DistinctNames, StatusCode, Spells, MissingSelector;
    SelectorsPresent(labels);
    SpelledCode(Lookup(labels, "code"));
    LabelMeans(labels, "host", host);
    LabelMeans(labels, "handler", "subroute");
    LabelMeans(labels, "server", server);
    forall value
      ensures Label("method", value) in labels ==> HasLabel(labels, "method") && Lookup(labels, "method") == value
      ensures Label("code", value) in labels ==> HasLabel(labels, "code") && Lookup(labels, "code") == value
    {
      LabelMeans(labels, "method", value);
      LabelMeans(labels, "code", value);
    }
    if Labels(labels, host, server, code) {
      CodeIsText(labels, code);
    }
    LabelMeans(labels, "method", "");
    LabelMeans(labels, "code", "");
  }

  lemma {:induction false} CodeIsText(labels: seq<Label>, code: int)
    requires DistinctNames(labels) && exists text :: Spells(text, code) && Label("code", text) in labels
    ensures Spells(Lookup(labels, "code"), code) && Lookup(labels, "code") != ""
  {
    hide Lookup;
    var text :| Spells(text, code) && Label("code", text) in labels;
    LabelMeans(labels, "code", text);
  }

  /** A sample counts for nothing if it is foreign, and for its labels and its value if it is the host's own; any other
      sample spoils the scrape. */
  lemma {:induction false} ReadsAsMeant(s: ScrapedSample, c: Selector, server: string, code: int)
    requires DistinctNames(s.labels) && c.host != ""
    ensures Foreign(s, c.host) ==> Reading(s, c) == Some(None)
    ensures !Foreign(s, c.host) && Valid(s) && Labels(s.labels, c.host, server, code) ==>
              Reading(s, c) ==
              Some(Some(Fact(server, IdentityKey(s.labels, c.printable), code,
                             s.name == "caddy_http_request_duration_seconds_count", s.value.value)))
    ensures !Foreign(s, c.host) && !Own(s, c.host) ==> Reading(s, c) == None
  {
    hide Lookup, HasLabel, StatusCode, MissingSelector, Foreign, Labels, IdentityKey, Irrelevant;
    ForeignIsIrrelevant(s, c.host);
    if !Foreign(s, c.host) {
      NotIrrelevant(s, c.host);
      SameLabels(s.labels, c.host, server, code);
      var named := StatusCode(Lookup(s.labels, "code"));
      if named.Some? {
        SameLabels(s.labels, c.host, Lookup(s.labels, "server"), named.value);
      }
    }
  }

  lemma {:induction false} NotIrrelevant(s: ScrapedSample, host: string)
    requires !Irrelevant(s, host)
    ensures HasLabel(s.labels, "host") ==> Lookup(s.labels, "host") == host
    ensures HasLabel(s.labels, "handler") ==> Lookup(s.labels, "handler") == "subroute"
  {
  }

  // ---------- Foreign and unfit samples anywhere in a scrape ----------

  lemma {:induction false} ObservedThrough(a: seq<ScrapedSample>, b: seq<ScrapedSample>, c: Selector)
    ensures Observed(a + b, c) == Fold(Stepper(c), Observed(a, c), b)
  {
    if b == [] {
      assert a + b == a;
    } else {
      InitOfConcat(a, b);
      ObservedThrough(a, Init(b), c);
    }
  }

  lemma {:induction false} OneMore(p: Option<Population>, s: ScrapedSample, c: Selector)
    ensures Fold(Stepper(c), p, [s]) == CaddyPopulation.Step(p, s, c)
  {
    assert [s] == [] + [s];
    FoldOfAppend(Stepper(c), p, [], s);
  }

  lemma {:induction false} InTheMiddle(a: seq<ScrapedSample>, s: ScrapedSample, b: seq<ScrapedSample>, c: Selector)
    ensures Observed(a + [s] + b, c) == Fold(Stepper(c), CaddyPopulation.Step(Observed(a, c), s, c), b)
    ensures Observed(a + b, c) == Fold(Stepper(c), Observed(a, c), b)
  {
    hide CaddyPopulation.Step;
    ObservedThrough(a + [s], b, c);
    ObservedThrough(a, [s], c);
    OneMore(Observed(a, c), s, c);
    ObservedThrough(a, b, c);
  }

  /** A foreign sample can stand anywhere in a scrape without changing what is collected. */
  lemma {:induction false} ForeignIsIgnored(a: seq<ScrapedSample>, s: ScrapedSample, b: seq<ScrapedSample>,
                                            settings: Settings, failure: Option<string>)
    requires DistinctNames(s.labels) && Foreign(s, settings.selector.host)
    ensures Gathered(settings, Scrape(a + [s] + b, failure)) == Gathered(settings, Scrape(a + b, failure))
    ensures Observed(a + [s] + b, settings.selector) == Observed(a + b, settings.selector)
  {
    hide Foreign, Paired, InRange, AcceptOne;
    ForeignIsSkipped(Observed(a, settings.selector), s, settings.selector);
    InTheMiddle(a, s, b, settings.selector);
  }

  lemma {:induction false} ForeignIsSkipped(p: Option<Population>, s: ScrapedSample, c: Selector)
    requires DistinctNames(s.labels) && Foreign(s, c.host)
    ensures CaddyPopulation.Step(p, s, c) == p
  {
    hide Irrelevant, Foreign;
    ForeignIsIrrelevant(s, c.host);
  }

  /** A sample of the two metrics that is neither foreign nor the host's own spoils the scrape wherever it stands. */
  lemma {:induction false} UnfitSpoils(a: seq<ScrapedSample>, s: ScrapedSample, b: seq<ScrapedSample>,
                                       settings: Settings, failure: Option<string>)
    requires DistinctNames(s.labels) && settings.selector.host != ""
    requires !Foreign(s, settings.selector.host) && !Own(s, settings.selector.host)
    ensures Gathered(settings, Scrape(a + [s] + b, failure)).None?
  {
    hide Foreign, Own, Paired, InRange, CaddyPopulation.Step, Reading;
    var c := settings.selector;
    ReadsAsMeant(s, c, "", 0);
    if Observed(a, c).Some? {
      StepReads(Observed(a, c).value, s, c);
    } else {
      StepOfNone(s, c);
    }
    InTheMiddle(a, s, b, c);
    SpoiltStays(b, c);
  }

  lemma {:induction false} SpoiltStays(b: seq<ScrapedSample>, c: Selector)
    ensures Fold(Stepper(c), None, b) == None
  {
    if b != [] {
      SpoiltStays(Init(b), c);
    }
  }

  // ---------- A host that serves ----------

  /** A series of the host as both of its metrics expose it. */
  datatype Served = Served(labels: seq<Label>, count: real, seconds: real, code: int)

  function CountOf(s: Served): ScrapedSample {
    ScrapedSample("caddy_http_request_duration_seconds_count", s.labels, Finite(s.count))
  }

  function SecondsOf(s: Served): ScrapedSample {
    ScrapedSample("caddy_http_request_duration_seconds_sum", s.labels, Finite(s.seconds))
  }

  function Exposed(all: seq<Served>): seq<ScrapedSample> {
    if all == [] then [] else Exposed(Init(all)) + [CountOf(Last(all))] + [SecondsOf(Last(all))]
  }

  ghost predicate Proper(s: Served, host: string, server: string) {
    && Labels(s.labels, host, server, s.code) && s.seconds >= 0.0
    && 0.0 <= s.count <= 9007199254740991.0 && s.count == s.count.Floor as real
  }

  /** Distinct series of one server. */
  ghost predicate Serves(all: seq<Served>, host: string, server: string) {
    && (forall s :: s in all ==> Proper(s, host, server))
    && (forall i, j :: 0 <= i < j < |all| ==> multiset(all[i].labels) != multiset(all[j].labels))
  }

  /** What a series adds to a counter: requests by status class, and request time. */
  function Adds(s: Served, k: Key): real {
    match k
    case HttpRequestsTotal => s.count
    case Http404Total => if s.code == 404 then s.count else 0.0
    case Http4xxTotal => if s.code / 100 == 4 then s.count else 0.0
    case Http5xxTotal => if s.code / 100 == 5 then s.count else 0.0
    case HttpRequestTimeTotal => s.seconds
    case _ => 0.0
  }

  function AddsAll(all: seq<Served>, k: Key): real {
    if all == [] then 0.0 else AddsAll(Init(all), k) + Adds(Last(all), k)
  }

  function KeyOf(s: Served, c: Selector): string {
    IdentityKey(s.labels, c.printable)
  }

  function TuplesOf(all: seq<Served>, c: Selector): Tuples {
    if all == [] then map[]
    else
      var s := Last(all);
      TuplesOf(Init(all), c)[KeyOf(s, c) := Tuple(s.count, s.seconds, true, true, s.code)]
  }

  lemma {:induction false} NewKey(all: seq<Served>, s: Served, c: Selector, server: string)
    requires Serves(all + [s], c.host, server)
    ensures Serves(all, c.host, server) && KeyOf(s, c) !in TuplesOf(all, c)
    ensures |TuplesOf(all, c)| <= |all|
  {
    hide Labels, IdentityKey;
    var more := all + [s];
    assert forall i :: 0 <= i < |all| ==> more[i] == all[i] && more[i] in more;
    KeysOfServed(all, c);
    if KeyOf(s, c) in TuplesOf(all, c) {
      var i :| 0 <= i < |all| && KeyOf(all[i], c) == KeyOf(s, c);
      DifferentKeys(more, i, |all|, c, server);
    }
  }

  lemma {:induction false} DifferentKeys(all: seq<Served>, i: nat, j: nat, c: Selector, server: string)
    requires Serves(all, c.host, server) && i < j < |all|
    ensures KeyOf(all[i], c) != KeyOf(all[j], c)
  {
    hide IdentityKey;
    assert all[i] in all && all[j] in all;
    KeyIdentifiesLabels(all[i].labels, all[j].labels, c.printable);
  }

  lemma {:induction false} KeysOfServed(all: seq<Served>, c: Selector)
    ensures forall key :: key in TuplesOf(all, c) <==> exists i :: 0 <= i < |all| && KeyOf(all[i], c) == key
    ensures |TuplesOf(all, c)| <= |all|
  {
    hide KeyOf;
    if all != [] {
      var init, key := Init(all), KeyOf(Last(all), c);
      KeysOfServed(init, c);
      assert forall i :: 0 <= i < |init| ==> init[i] == all[i];
      assert KeyOf(all[|all| - 1], c) == key;
      OneMoreTuple(TuplesOf(init, c), key, TuplesOf(all, c)[key], HttpRequestsTotal);
    }
  }

  lemma {:induction false} ProperReads(s: Served, c: Selector, server: string)
    requires Proper(s, c.host, server) && c.host != ""
    ensures Reading(CountOf(s), c) == Some(Some(Fact(server, KeyOf(s, c), s.code, true, s.count)))
    ensures Reading(SecondsOf(s), c) == Some(Some(Fact(server, KeyOf(s, c), s.code, false, s.seconds)))
  {
    hide Reading, IdentityKey, Labels, Foreign;
    OwnIsNotForeign(s.labels, c.host, server, s.code);
    LabelsAreDistinct(s.labels, c.host, server, s.code);
    NotForeign(CountOf(s), c.host);
    NotForeign(SecondsOf(s), c.host);
    ReadsAsMeant(CountOf(s), c, server, s.code);
    ReadsAsMeant(SecondsOf(s), c, server, s.code);
  }

  lemma {:induction false} LabelsAreDistinct(labels: seq<Label>, host: string, server: string, code: int)
    requires Labels(labels, host, server, code)
    ensures DistinctNames(labels)
  {
  }

  lemma {:induction false} NotForeign(s: ScrapedSample, host: string)
    requires s.name == "caddy_http_request_duration_seconds_count" ||
             s.name == "caddy_http_request_duration_seconds_sum"
    requires forall other :: Label("host", other) in s.labels ==> other == host
    requires forall other :: Label("handler", other) in s.labels ==> other == "subroute"
    ensures !Foreign(s, host)
  {
  }

  lemma {:induction false} OwnIsNotForeign(labels: seq<Label>, host: string, server: string, code: int)
    requires Labels(labels, host, server, code)
    ensures forall other :: Label("host", other) in labels ==> other == host
    ensures forall other :: Label("handler", other) in labels ==> other == "subroute"
  {
    hide Lookup, HasLabel;
    LabelMeans(labels, "host", host);
    LabelMeans(labels, "handler", "subroute");
    forall other
      ensures Label("host", other) in labels ==> Lookup(labels, "host") == other
      ensures Label("handler", other) in labels ==> Lookup(labels, "handler") == other
    {
      LabelMeans(labels, "host", other);
      LabelMeans(labels, "handler", other);
    }
  }

  lemma {:induction false} TwoSteps(p: Population, s: Served, c: Selector, server: string)
    requires Proper(s, c.host, server) && c.host != "" && server != ""
    requires p.server == "" || p.server == server
    requires KeyOf(s, c) !in p.tuples && |p.tuples| < 256
    ensures
      var next := Population(server, p.tuples[KeyOf(s, c) := Tuple(s.count, s.seconds, true, true, s.code)]);
      CaddyPopulation.Step(CaddyPopulation.Step(Some(p), CountOf(s), c), SecondsOf(s), c) == Some(next)
  {
    hide CaddyPopulation.Step, Reading, KeyOf, Proper;
    ProperReads(s, c, server);
    StepReads(p, CountOf(s), c);
    var f := Reading(CountOf(s), c).value.value;
    StepReads(Add(p, f), SecondsOf(s), c);
    var g := Reading(SecondsOf(s), c).value.value;
    assert Add(Add(p, f), g).tuples == p.tuples[KeyOf(s, c) := Tuple(s.count, s.seconds, true, true, s.code)];
  }

  lemma {:induction false} ServerIsNamed(s: Served, host: string, server: string)
    requires Proper(s, host, server)
    ensures server != ""
  {
  }

  lemma {:induction false} ExposedIsObserved(all: seq<Served>, c: Selector, server: string)
    requires Serves(all, c.host, server) && c.host != "" && |all| <= 256
    ensures Observed(Exposed(all), c) ==
            Some(Population(if all == [] then "" else server, TuplesOf(all, c)))
  {
    hide CaddyPopulation.Step, Proper, KeyOf;
    if all == [] {
      assert Observed([], c) == Some(NOBODY);
    } else {
      var init, s := Init(all), Last(all);
      assert all == init + [s] && s in all;
      NewKey(init, s, c, server);
      ExposedIsObserved(init, c, server);
      ServerIsNamed(s, c.host, server);
      TwoSteps(Observed(Exposed(init), c).value, s, c, server);
      ObservedMore(Exposed(init), CountOf(s), c);
      ObservedMore(Exposed(init) + [CountOf(s)], SecondsOf(s), c);
    }
  }

  lemma {:induction false} ObservedMore(samples: seq<ScrapedSample>, s: ScrapedSample, c: Selector)
    ensures Observed(samples + [s], c) == CaddyPopulation.Step(Observed(samples, c), s, c)
  {
    FoldOfAppend(Stepper(c), Some(NOBODY), samples, s);
  }

  lemma {:induction false} ForeignTailIsIgnored(samples: seq<ScrapedSample>, others: seq<ScrapedSample>, c: Selector)
    requires forall s :: s in others ==> DistinctNames(s.labels) && Foreign(s, c.host)
    ensures Observed(samples + others, c) == Observed(samples, c)
  {
    hide Foreign, CaddyPopulation.Step;
    if others == [] {
      assert samples + others == samples;
    } else {
      var init, s := Init(others), Last(others);
      assert others == init + [s];
      ForeignTailIsIgnored(samples, init, c);
      assert samples + others == samples + init + [s];
      ObservedMore(samples + init, s, c);
      ForeignIsSkipped(Observed(samples + init, c), s, c);
    }
  }

  /** The five counters of the population are the sums over the series, by status class. */
  lemma {:induction false} TotalsAreServed(all: seq<Served>, c: Selector, server: string, k: Key)
    requires Serves(all, c.host, server) && k in COUNTER_KEYS
    ensures Total(TuplesOf(all, c), k) == AddsAll(all, k)
    ensures Paired(TuplesOf(all, c)) && |TuplesOf(all, c)| == |all|
  {
    hide Serves, KeyOf, Total, Adds, Contribution, Paired;
    if all == [] {
      NoTotal(k);
    } else {
      var init, s := Init(all), Last(all);
      var key, t := KeyOf(s, c), Tuple(s.count, s.seconds, true, true, s.code);
      assert all == init + [s];
      NewKey(init, s, c, server);
      TotalsAreServed(init, c, server, k);
      LastIsProper(all, c.host, server);
      ContributionMeans(s, c.host, server, k);
      OneMoreTuple(TuplesOf(init, c), key, t, k);
    }
  }

  lemma {:induction false} LastIsProper(all: seq<Served>, host: string, server: string)
    requires Serves(all, host, server) && all != []
    ensures Proper(Last(all), host, server)
  {
    hide Proper;
    LastIsMember(all);
  }

  lemma {:induction false} OneMoreTuple(ts: Tuples, key: string, t: Tuple, k: Key)
    ensures |ts[key := t]| == |ts| + if key in ts then 0 else 1
    ensures key !in ts ==> Total(ts[key := t], k) == Total(ts, k) + Contribution(t, k)
    ensures Paired(ts) && t.hasCount && t.hasSum ==> Paired(ts[key := t])
  {
    hide Total, Contribution;
    InsertSize(ts.Keys, key);
    assert ts[key := t].Keys == ts.Keys + {key};
    assert |ts[key := t]| == |ts[key := t].Keys| && |ts| == |ts.Keys|;
    TotalRemove(ts[key := t], key, k);
    if key !in ts {
      assert ts[key := t] - {key} == ts;
    }
  }

  lemma {:induction false} NoTotal(k: Key)
    ensures Total(map[], k) == 0.0 && Paired(map[])
  {
  }

  lemma {:induction false} ContributionMeans(s: Served, host: string, server: string, k: Key)
    requires Proper(s, host, server) && k in COUNTER_KEYS
    ensures Contribution(Tuple(s.count, s.seconds, true, true, s.code), k) == Adds(s, k)
  {
  }

  /** The scrape exposes these series of the host, in any order, with any foreign samples among them. */
  ghost predicate Exposes(scrape: Scrape, all: seq<Served>, others: seq<ScrapedSample>, host: string) {
    && scrape.failure.None?
    && multiset(scrape.samples) == multiset(Exposed(all) + others)
    && forall s :: s in others ==> DistinctNames(s.labels) && Foreign(s, host)
  }

  /** A scrape that exposes between 1 and 256 series of the host, all of one server and in range, is collected with one
      tuple for each label set, holding its count, its duration and the status code its label spells. */
  lemma {:induction false} ServedAreCollected(settings: Settings, scrape: Scrape, all: seq<Served>,
                                              others: seq<ScrapedSample>, server: string)
    requires settings.configured && settings.selector.host != "" && 1 <= |all| <= 256
    requires Parsed(scrape.samples) && Exposes(scrape, all, others, settings.selector.host)
    requires Serves(all, settings.selector.host, server)
    requires AddsAll(all, HttpRequestsTotal) <= 9007199254740991.0
    requires AddsAll(all, HttpRequestTimeTotal) <= settings.limit
    ensures Gathered(settings, scrape) == Some(Population(server, TuplesOf(all, settings.selector)))
    ensures |TuplesOf(all, settings.selector)| == |all|
    ensures forall s :: s in all ==>
                          && KeyOf(s, settings.selector) in TuplesOf(all, settings.selector)
                          && TuplesOf(all, settings.selector)[KeyOf(s, settings.selector)] ==
                             Tuple(s.count, s.seconds, true, true, s.code)
    ensures forall k :: k in COUNTER_KEYS ==> Total(TuplesOf(all, settings.selector), k) == AddsAll(all, k)
  {
    hide Observed, Total, Foreign, Proper, Paired;
    var c := settings.selector;
    OrderDoesNotMatter(scrape.samples, Exposed(all) + others, c);
    ForeignTailIsIgnored(Exposed(all), others, c);
    ExposedIsObserved(all, c, server);
    forall k | k in COUNTER_KEYS
      ensures Total(TuplesOf(all, c), k) == AddsAll(all, k) && |TuplesOf(all, c)| == |all| && Paired(TuplesOf(all, c))
    {
      TotalsAreServed(all, c, server, k);
    }
    assert HttpRequestsTotal in COUNTER_KEYS && HttpRequestTimeTotal in COUNTER_KEYS;
    EachTuple(all, c, server);
  }

  lemma {:induction false} EachTuple(all: seq<Served>, c: Selector, server: string)
    requires Serves(all, c.host, server)
    ensures forall s :: s in all ==>
                          && KeyOf(s, c) in TuplesOf(all, c)
                          && TuplesOf(all, c)[KeyOf(s, c)] == Tuple(s.count, s.seconds, true, true, s.code)
  {
    hide KeyOf, Proper;
    if all != [] {
      var init, s := Init(all), Last(all);
      assert all == init + [s];
      NewKey(init, s, c, server);
      EachTuple(init, c, server);
    }
  }

  /** The report of such a scrape: five counters, each the sum over the series. */
  lemma {:induction false} ServedAreReported(settings: Settings, scrape: Scrape, all: seq<Served>,
                                             others: seq<ScrapedSample>, server: string, result: CollectionResult,
                                             err: Option<CollectError>, times: Times, before: Memory)
    requires settings.configured && settings.selector.host != "" && 1 <= |all| <= 256
    requires Parsed(scrape.samples) && Exposes(scrape, all, others, settings.selector.host)
    requires Serves(all, settings.selector.host, server)
    requires AddsAll(all, HttpRequestsTotal) <= 9007199254740991.0
    requires AddsAll(all, HttpRequestTimeTotal) <= settings.limit
    requires Reports(result, err, times, Gathered(settings, scrape), before)
    ensures err.None? && result.events == [] && result.samples.Keys == COUNTER_KEYS
    ensures forall k :: k in COUNTER_KEYS ==>
                          result.samples[k] ==
                          Sample(Counter, AddsAll(all, k), if k == HttpRequestTimeTotal then "seconds" else "requests")
  {
    hide Total, Serves, Exposes, Exposed, Breaks, Gathered, TuplesOf;
    ServedAreCollected(settings, scrape, all, others, server);
  }

  /** A scrape of foreign samples only finds nobody, and says so. */
  lemma {:induction false} NobodyIsReported(settings: Settings, scrape: Scrape, result: CollectionResult,
                                            err: Option<CollectError>, times: Times, before: Memory)
    requires settings.configured && scrape.failure.None? && Parsed(scrape.samples)
    requires forall s :: s in scrape.samples ==> Foreign(s, settings.selector.host)
    requires Reports(result, err, times, Gathered(settings, scrape), before)
    requires err.Some? ==> Caused(settings, scrape, err.value)
    ensures err.Some? && result.samples == map[] && |result.events| == 1
    ensures result.events[0].severity == Error && result.events[0].kind == "caddy_http_not_observed"
  {
    hide Foreign, Observed, Unfit, Total;
    assert [] + scrape.samples == scrape.samples;
    ForeignTailIsIgnored([], scrape.samples, settings.selector);
    NothingRefused(settings.selector);
    forall i, e | RefusedAt(scrape.samples, settings.selector, i, e) ensures false {
      ForeignIsAccepted(scrape.samples, settings.selector, i, e);
    }
  }

  lemma {:induction false} NothingRefused(c: Selector)
    ensures Observed([], c) == Some(NOBODY)
  {
  }

  lemma {:induction false} ForeignIsAccepted(samples: seq<ScrapedSample>, c: Selector, i: int, e: PopulationError)
    requires Parsed(samples) && forall s :: s in samples ==> Foreign(s, c.host)
    ensures !RefusedAt(samples, c, i, e)
  {
    hide Foreign, Irrelevant;
    if 0 <= i < |samples| {
      ForeignIsIrrelevant(samples[i], c.host);
    }
  }

  // ---------- Reasons of refusal ----------

  /** A failed collection names what went wrong: the settings, the scrape or a sample of it, that the host was not seen,
      or that its series do not add up. */
  lemma {:induction false} FailureIsNamed(settings: Settings, scrape: Scrape, result: CollectionResult,
                                          err: Option<CollectError>, times: Times, before: Memory)
    requires Reports(result, err, times, Gathered(settings, scrape), before)
    requires err.Some? && Caused(settings, scrape, err.value)
    ensures |result.events| == 1 && result.events[0].severity == Error
    ensures
      var p := Observed(scrape.samples, settings.selector);
      result.events[0].kind ==
        if !settings.configured then "collector_not_configured"
        else if p.None? || scrape.failure.Some? then "metrics_fetch_failed"
        else if p.value.tuples == map[] then "caddy_http_not_observed"
        else "caddy_population_invalid"
  {
    hide Observed, Unfit, RefusedAt, Gathered;
    if err.value.SampleRefused? {
      RefusalSpoils(scrape.samples, settings.selector, err.value.error);
    }
  }

  lemma {:induction false} RefusalSpoils(samples: seq<ScrapedSample>, c: Selector, e: PopulationError)
    requires FirstRefusal(samples, c, e)
    ensures Observed(samples, c).None?
  {
    hide Observed, AcceptOne;
    var i :| RefusedAt(samples, c, i, e);
    ObservedNext(samples, c, i);
    RefusedForGood(samples, c, i + 1);
  }


  ghost predicate Named(labels: seq<Label>, name: string) {
    exists value :: value != "" && Label(name, value) in labels
  }

  /** The first of these names that the labels do not name. */
  ghost predicate FirstUnnamed(labels: seq<Label>, names: seq<string>, name: string) {
    exists i :: 0 <= i < |names| && names[i] == name && !Named(labels, name)
                && forall j :: 0 <= j < i ==> Named(labels, names[j])
  }

  ghost predicate AllNamed(labels: seq<Label>, names: seq<string>) {
    forall i :: 0 <= i < |names| ==> Named(labels, names[i])
  }

  ghost predicate Coded(labels: seq<Label>) {
    exists text, code :: Label("code", text) in labels && Spells(text, code)
  }

  /** No sample of the population so far was handled by another server. */
  predicate SameServer(p: Population, labels: seq<Label>) {
    p.server == "" || Label("server", p.server) in labels
  }

  /** The first thing that is wrong with a sample after the population so far: a label that is missing, the code, the
      server, the value, and only then what the population already holds. */
  ghost predicate Meant(p: Population, s: ScrapedSample, c: Selector, e: PopulationError) {
    var names := ["host", "handler", "server", "method", "code"];
    if e.MissingLabel? then FirstUnnamed(s.labels, names, e.name)
    else
      && AllNamed(s.labels, names)
      && (e.InvalidStatusCode? <==> !Coded(s.labels))
      && (e.AmbiguousServer? <==> Coded(s.labels) && !SameServer(p, s.labels))
      && (e.InvalidValue? <==> Coded(s.labels) && SameServer(p, s.labels) && !Valid(s))
      && (e.InvalidValue? ==> e.name == s.name)
      && (Coded(s.labels) && SameServer(p, s.labels) && Valid(s) ==>
            AlreadyHeld(p, IdentityKey(s.labels, c.printable), s.name, e))
  }

  /** A new tuple is one too many, or the tuple already has this part. */
  predicate AlreadyHeld(p: Population, key: string, name: string, e: PopulationError) {
    if key !in p.tuples then e.TooManyTuples? && |p.tuples| >= 256
    else if name == "caddy_http_request_duration_seconds_count" then e.DuplicateCount? && p.tuples[key].hasCount
    else e.DuplicateSum? && p.tuples[key].hasSum
  }

  lemma {:induction false} NamedMeans(labels: seq<Label>, name: string)
    requires DistinctNames(labels)
    ensures Named(labels, name) <==> Lookup(labels, name) != ""
  {
    hide Lookup, HasLabel, DistinctNames;
    LabelMeans(labels, name, "");
    forall value | Label(name, value) in labels ensures Lookup(labels, name) == value {
      LabelMeans(labels, name, value);
    }
  }

  lemma {:induction false} FirstMissingMeans(labels: seq<Label>, names: seq<string>)
    requires DistinctNames(labels)
    ensures match MissingSelector(labels, names)
            case None => AllNamed(labels, names)
            case Some(name) => FirstUnnamed(labels, names, name)
  {
    hide Lookup, Named, DistinctNames;
    if names != [] {
      var rest := names[1..];
      NamedMeans(labels, names[0]);
      FirstMissingMeans(labels, rest);
      if Named(labels, names[0]) {
        assert forall j :: 0 < j < |names| ==> names[j] == rest[j - 1];
        var missing := MissingSelector(labels, rest);
        if missing.Some? {
          var i :| 0 <= i < |rest| && rest[i] == missing.value && !Named(labels, missing.value)
                   && forall j :: 0 <= j < i ==> Named(labels, rest[j]);
          assert names[i + 1] == missing.value;
        }
      }
    }
  }

  lemma {:induction false} CodedMeans(labels: seq<Label>)
    requires DistinctNames(labels) && Named(labels, "code")
    ensures Coded(labels) <==> StatusCode(Lookup(labels, "code")).Some?
  {
    hide Lookup, StatusCode, Spells, HasLabel, DistinctNames;
    forall text, code | Label("code", text) in labels
      ensures Spells(text, code) <==> StatusCode(Lookup(labels, "code")) == Some(code)
    {
      LabelMeans(labels, "code", text);
      SpelledCode(text);
    }
    var text :| text != "" && Label("code", text) in labels;
    assert StatusCode(Lookup(labels, "code")).Some? ==> Spells(text, StatusCode(Lookup(labels, "code")).value);
  }

  lemma {:induction false} ServerMeans(p: Population, labels: seq<Label>)
    requires DistinctNames(labels) && Named(labels, "server")
    ensures SameServer(p, labels) <==> p.server == "" || p.server == Lookup(labels, "server")
  {
    hide Lookup, HasLabel, DistinctNames;
    var server :| server != "" && Label("server", server) in labels;
    LabelMeans(labels, "server", server);
    LabelMeans(labels, "server", p.server);
  }

  /** A sample is refused for the first thing that is wrong with it. */
  lemma {:induction false} RefusalMeans(p: Population, s: ScrapedSample, c: Selector)
    requires DistinctNames(s.labels) && AcceptOne(p, s, c).Failure?
    ensures Meant(p, s, c, AcceptOne(p, s, c).error) && !Foreign(s, c.host)
  {
    hide Lookup, HasLabel, StatusCode, MissingSelector, Foreign, IdentityKey, Spells, Named, DistinctNames, Coded,
         FirstUnnamed, SameServer;
    ForeignIsIrrelevant(s, c.host);
    FirstMissingMeans(s.labels, SELECTORS);
    if AllNamed(s.labels, SELECTORS) {
      assert Named(s.labels, SELECTORS[2]) && Named(s.labels, SELECTORS[4]);
      CodedMeans(s.labels);
      ServerMeans(p, s.labels);
    }
  }
}
