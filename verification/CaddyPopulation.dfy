/** The HTTP population of one Caddy host: which samples belong to it and how they pair up into tuples. */
module CaddyPopulation {
  import opened Common
  import opened Exposition
  import opened Folds
  import opened Identity

  const COUNT_NAME := "caddy_http_request_duration_seconds_count"
  const SUM_NAME := "caddy_http_request_duration_seconds_sum"
  const MAX_TUPLES := 256
  const MAX_COUNT := 0x1F_FFFF_FFFF_FFFF
  const SELECTORS: seq<string> := ["host", "handler", "server", "method", "code"]

  datatype Tuple = Tuple(count: real, sum: real, hasCount: bool, hasSum: bool, code: int)

  const NO_TUPLE := Tuple(0.0, 0.0, false, false, 0)

  datatype PopulationError =
    | MissingLabel(name: string)
    | InvalidStatusCode
    | AmbiguousServer
    | InvalidValue(name: string)
    | TooManyTuples
    | DuplicateCount
    | DuplicateSum
    | Unpaired
    | CountOutOfRange
    | DurationOverflow

  /** The selected host, and the Unicode table that quoting consults. */
  datatype Selector = Selector(host: string, printable: char -> bool)

  /** The server is empty until the first matching sample. */
  datatype Population = Population(server: string, tuples: map<string, Tuple>)

  const NOBODY := Population("", map[])

  // ---------- One sample ----------

  function DigitValue(c: char): Option<nat> {
    if '0' <= c <= '9' then Some((c as int) - ('0' as int)) else None
  }

  /** Three decimal digits from 100 to 599; a sign leaves at most two digits, which are out of range. */
  function StatusCode(s: string): (r: Option<int>)
    ensures r.Some? ==> 100 <= r.value <= 599
  {
    if |s| != 3 || DigitValue(s[0]).None? || DigitValue(s[1]).None? || DigitValue(s[2]).None? then None
    else
      var code := 100 * DigitValue(s[0]).value + 10 * DigitValue(s[1]).value + DigitValue(s[2]).value;
      if 100 <= code <= 599 then Some(code) else None
  }

  predicate IsCount(s: ScrapedSample) {
    s.name == COUNT_NAME
  }

  /** Samples of other metrics and of known other populations. */
  predicate Irrelevant(s: ScrapedSample, host: string) {
    || (s.name != COUNT_NAME && s.name != SUM_NAME)
    || (HasLabel(s.labels, "host") && Lookup(s.labels, "host") != host)
    || (HasLabel(s.labels, "handler") && Lookup(s.labels, "handler") != "subroute")
  }

  /** The first selector label that is missing or empty. */
  function MissingSelector(labels: seq<Label>, names: seq<string>): Option<string> {
    if names == [] then None
    else if Lookup(labels, names[0]) == "" then Some(names[0])
    else MissingSelector(labels, names[1..])
  }

  predicate ValidValue(s: ScrapedSample) {
    && FiniteNonnegative(s.value)
    && (IsCount(s) ==> s.value.value == s.value.value.Floor as real && s.value.value <= MAX_COUNT as real)
  }

  function TupleAt(tuples: map<string, Tuple>, key: string): Tuple {
    if key in tuples then tuples[key] else NO_TUPLE
  }

  function AcceptOne(p: Population, s: ScrapedSample, c: Selector): Result<Population, PopulationError> {
    if Irrelevant(s, c.host) then Success(p)
    else if MissingSelector(s.labels, SELECTORS).Some? then
      Failure(MissingLabel(MissingSelector(s.labels, SELECTORS).value))
    else if StatusCode(Lookup(s.labels, "code")).None? then Failure(InvalidStatusCode)
    else if p.server != "" && p.server != Lookup(s.labels, "server") then Failure(AmbiguousServer)
    else if !ValidValue(s) then Failure(InvalidValue(s.name))
    else
      var key := IdentityKey(s.labels, c.printable);
      var tuple := TupleAt(p.tuples, key).(code := StatusCode(Lookup(s.labels, "code")).value);
      if key !in p.tuples && |p.tuples| >= MAX_TUPLES then Failure(TooManyTuples)
      else if IsCount(s) && tuple.hasCount then Failure(DuplicateCount)
      else if !IsCount(s) && tuple.hasSum then Failure(DuplicateSum)
      else
        var tuple' := if IsCount(s) then tuple.(count := s.value.value, hasCount := true)
                      else tuple.(sum := s.value.value, hasSum := true);
        Success(Population(Lookup(s.labels, "server"), p.tuples[key := tuple']))
  }

  /** The scrape stops at the first refused sample. */
  function Step(p: Option<Population>, s: ScrapedSample, c: Selector): Option<Population> {
    if p.None? then None
    else
      match AcceptOne(p.value, s, c)
      case Success(next) => Some(next)
      case Failure(_) => None
  }

  function Stepper(c: Selector): (Option<Population>, ScrapedSample) -> Option<Population> {
    (p, s) => Step(p, s, c)
  }

  /** The population of a whole scrape, if every sample is accepted. */
  function Observed(samples: seq<ScrapedSample>, c: Selector): Option<Population> {
    Fold(Stepper(c), Some(NOBODY), samples)
  }

  /** The parser refuses a repeated label name. */
  ghost predicate Parsed(samples: seq<ScrapedSample>) {
    forall s :: s in samples ==> DistinctNames(s.labels)
  }

  // ---------- Order does not matter ----------

  lemma {:induction false} SameKeySameCode(a: seq<Label>, b: seq<Label>, printable: char -> bool)
    requires DistinctNames(a) && DistinctNames(b) && IdentityKey(a, printable) == IdentityKey(b, printable)
    ensures Lookup(a, "code") == Lookup(b, "code")
  {
    KeyIdentifiesLabels(a, b, printable);
    LookupOfPermutation(a, b, "code");
  }

  /** What a matching sample contributes, apart from the other samples. */
  datatype Fact = Fact(server: string, key: string, code: int, isCount: bool, value: real)

  /** A sample that is refused whatever came before has no reading; an irrelevant one reads as no fact. */
  function Reading(s: ScrapedSample, c: Selector): Option<Option<Fact>> {
    if Irrelevant(s, c.host) then Some(None)
    else if MissingSelector(s.labels, SELECTORS).Some? || StatusCode(Lookup(s.labels, "code")).None? || !ValidValue(s)
    then None
    else
      var code := StatusCode(Lookup(s.labels, "code")).value;
      Some(Some(Fact(Lookup(s.labels, "server"), IdentityKey(s.labels, c.printable), code, IsCount(s), s.value.value)))
  }

  predicate Admits(p: Population, f: Fact) {
    && (p.server == "" || p.server == f.server)
    && (f.key in p.tuples || |p.tuples| < MAX_TUPLES)
    && !(if f.isCount then TupleAt(p.tuples, f.key).hasCount else TupleAt(p.tuples, f.key).hasSum)
  }

  function With(t: Tuple, f: Fact): Tuple {
    if f.isCount then t.(code := f.code, count := f.value, hasCount := true)
    else t.(code := f.code, sum := f.value, hasSum := true)
  }

  function Add(p: Population, f: Fact): Population {
    Population(f.server, p.tuples[f.key := With(TupleAt(p.tuples, f.key), f)])
  }

  lemma {:induction false} StepReads(p: Population, s: ScrapedSample, c: Selector)
    ensures
      var r := Reading(s, c);
      Step(Some(p), s, c) ==
        if r.None? then None
        else if r.value.None? then Some(p)
        else if Admits(p, r.value.value) then Some(Add(p, r.value.value)) else None
  {
    hide IdentityKey, Lookup, HasLabel, StatusCode, MissingSelector, ValidValue, Irrelevant;
  }

  lemma {:induction false} ReadingNamesServer(s: ScrapedSample, c: Selector)
    requires Reading(s, c).Some? && Reading(s, c).value.Some?
    ensures Reading(s, c).value.value.server != ""
  {
    hide IdentityKey, HasLabel, StatusCode, ValidValue, Irrelevant;
    var names := SELECTORS;
    assert MissingSelector(s.labels, names[1..]).None? && MissingSelector(s.labels, names[1..][1..]).None?;
    assert names[1..][1..][0] == "server";
  }

  lemma {:induction false} AdmitsAfter(p: Population, f: Fact, g: Fact)
    requires f.server != ""
    ensures Admits(Add(p, f), g) <==>
              && f.server == g.server
              && (g.key in p.tuples || g.key == f.key
                  || (if f.key in p.tuples then |p.tuples| else |p.tuples| + 1) < MAX_TUPLES)
              && !(g.key == f.key && g.isCount == f.isCount)
              && !(if g.isCount then TupleAt(p.tuples, g.key).hasCount else TupleAt(p.tuples, g.key).hasSum)
  {
    assert |Add(p, f).tuples| == if f.key in p.tuples then |p.tuples| else |p.tuples| + 1;
    assert TupleAt(Add(p, f).tuples, g.key) ==
           if f.key == g.key then With(TupleAt(p.tuples, f.key), f) else TupleAt(p.tuples, g.key);
  }

  lemma {:induction false} AddsCommute(p: Population, f: Fact, g: Fact)
    requires f.server != "" && g.server != ""
    requires f.key == g.key ==> f.code == g.code
    ensures Admits(p, f) && Admits(Add(p, f), g) <==> Admits(p, g) && Admits(Add(p, g), f)
    ensures Admits(p, f) && Admits(Add(p, f), g) ==> Add(Add(p, f), g) == Add(Add(p, g), f)
  {
    AdmitsAfter(p, f, g);
    AdmitsAfter(p, g, f);
    if Admits(p, f) && Admits(Add(p, f), g) {
      var t, u := TupleAt(p.tuples, f.key), TupleAt(p.tuples, g.key);
      if f.key == g.key {
        assert Add(Add(p, f), g).tuples == p.tuples[f.key := With(With(t, f), g)];
        assert Add(Add(p, g), f).tuples == p.tuples[f.key := With(With(t, g), f)];
      } else {
        assert Add(Add(p, f), g).tuples == p.tuples[f.key := With(t, f)][g.key := With(u, g)];
        assert Add(Add(p, g), f).tuples == p.tuples[f.key := With(t, f)][g.key := With(u, g)];
      }
    }
  }

  lemma {:induction false} StepsCommute(p: Option<Population>, s: ScrapedSample, t: ScrapedSample, c: Selector)
    requires DistinctNames(s.labels) && DistinctNames(t.labels)
    ensures Step(Step(p, s, c), t, c) == Step(Step(p, t, c), s, c)
  {
    hide Admits, Add, IdentityKey, Lookup, HasLabel, StatusCode, MissingSelector, ValidValue, Irrelevant, AcceptOne;
    if p.Some? {
      StepReads(p.value, s, c);
      StepReads(p.value, t, c);
      if Reading(s, c).Some? && Reading(t, c).Some? {
        var f, g := Reading(s, c).value, Reading(t, c).value;
        if f.Some? && g.Some? {
          ReadingNamesServer(s, c);
          ReadingNamesServer(t, c);
          if f.value.key == g.value.key {
            SameKeySameCode(s.labels, t.labels, c.printable);
          }
          AddsCommute(p.value, f.value, g.value);
          StepReads(Add(p.value, f.value), t, c);
          StepReads(Add(p.value, g.value), s, c);
        } else if f.Some? {
          StepReads(Add(p.value, f.value), t, c);
        } else if g.Some? {
          StepReads(Add(p.value, g.value), s, c);
        }
      } else if Reading(s, c).Some? && Reading(s, c).value.Some? {
        StepReads(Add(p.value, Reading(s, c).value.value), t, c);
      } else if Reading(t, c).Some? && Reading(t, c).value.Some? {
        StepReads(Add(p.value, Reading(t, c).value.value), s, c);
      }
    }
  }

  /** The accepted population, and whether there is one, do not depend on the exposition order. */
  lemma {:induction false} OrderDoesNotMatter(a: seq<ScrapedSample>, b: seq<ScrapedSample>, c: Selector)
    requires Parsed(a) && multiset(a) == multiset(b)
    ensures Observed(a, c) == Observed(b, c)
  {
    hide Step;
    forall p: Option<Population>, s, t | s in a && t in a
      ensures Stepper(c)(Stepper(c)(p, s), t) == Stepper(c)(Stepper(c)(p, t), s)
    {
      StepsCommute(p, s, t, c);
    }
    FoldOfPermutation(Stepper(c), Some(NOBODY), a, b);
  }

  // ---------- What is accepted, and what is kept ----------

  function FactOf(s: ScrapedSample, c: Selector): Option<Fact> {
    if Reading(s, c).Some? then Reading(s, c).value else None
  }

  function Keys(samples: seq<ScrapedSample>, c: Selector): set<string> {
    if samples == [] then {}
    else if FactOf(Last(samples), c).Some? then Keys(Init(samples), c) + {FactOf(Last(samples), c).value.key}
    else Keys(Init(samples), c)
  }

  /** Two samples that can stand in the same population: one server, and not the same part of the same tuple. */
  predicate Compatible(f: Option<Fact>, g: Option<Fact>) {
    f.Some? && g.Some? ==>
      f.value.server == g.value.server && (f.value.key == g.value.key ==> f.value.isCount != g.value.isCount)
  }

  ghost predicate Acceptable(samples: seq<ScrapedSample>, c: Selector) {
    && (forall i :: 0 <= i < |samples| ==> Reading(samples[i], c).Some?)
    && (forall i, j :: 0 <= i < j < |samples| ==> Compatible(FactOf(samples[i], c), FactOf(samples[j], c)))
    && |Keys(samples, c)| <= MAX_TUPLES
  }

  predicate HasPart(t: Tuple, isCount: bool) {
    if isCount then t.hasCount else t.hasSum
  }

  function PartOf(t: Tuple, isCount: bool): real {
    if isCount then t.count else t.sum
  }

  /** A fact of the scrape is in the population, with its value and status code. */
  predicate Keeps(p: Population, f: Fact) {
    && p.server == f.server
    && f.key in p.tuples
    && p.tuples[f.key].code == f.code
    && HasPart(p.tuples[f.key], f.isCount)
    && PartOf(p.tuples[f.key], f.isCount) == f.value
  }

  ghost predicate Exposed(samples: seq<ScrapedSample>, c: Selector, key: string, isCount: bool) {
    exists i :: 0 <= i < |samples| && FactOf(samples[i], c).Some?
                && FactOf(samples[i], c).value.key == key && FactOf(samples[i], c).value.isCount == isCount
  }

  /** The population holds the scrape's facts and nothing else. */
  ghost predicate Records(p: Population, samples: seq<ScrapedSample>, c: Selector) {
    && p.tuples.Keys == Keys(samples, c)
    && (forall i :: 0 <= i < |samples| && FactOf(samples[i], c).Some? ==> Keeps(p, FactOf(samples[i], c).value))
    && (forall key :: key in p.tuples && p.tuples[key].hasCount ==> Exposed(samples, c, key, true))
    && (forall key :: key in p.tuples && p.tuples[key].hasSum ==> Exposed(samples, c, key, false))
    && ((forall i :: 0 <= i < |samples| ==> FactOf(samples[i], c).None?) ==> p == NOBODY)
  }

  lemma {:induction false} ExposedGrows(samples: seq<ScrapedSample>, s: ScrapedSample, c: Selector, key: string,
                                        isCount: bool)
    requires Exposed(samples, c, key, isCount)
    ensures Exposed(samples + [s], c, key, isCount)
  {
    var i :| 0 <= i < |samples| && FactOf(samples[i], c).Some?
             && FactOf(samples[i], c).value.key == key && FactOf(samples[i], c).value.isCount == isCount;
    assert (samples + [s])[i] == samples[i];
  }

  lemma {:induction false} RecordsGrow(p: Population, samples: seq<ScrapedSample>, s: ScrapedSample, c: Selector)
    requires Parsed(samples + [s]) && Records(p, samples, c) && FactOf(s, c).Some? && Admits(p, FactOf(s, c).value)
    requires forall i :: 0 <= i < |samples| ==> Compatible(FactOf(samples[i], c), FactOf(s, c))
    ensures Records(Add(p, FactOf(s, c).value), samples + [s], c)
  {
    hide Reading, IdentityKey, Lookup;
    var all, f := samples + [s], FactOf(s, c).value;
    var q := Add(p, f);
    InitOfAppend(samples, s);
    forall i | 0 <= i < |all| && FactOf(all[i], c).Some? ensures Keeps(q, FactOf(all[i], c).value) {
      if i < |samples| {
        var g := FactOf(samples[i], c).value;
        assert Keeps(p, g) && all[i] == samples[i];
        if g.key == f.key {
          FactCodes(samples[i], s, c);
        }
      }
    }
    forall key | key in q.tuples && q.tuples[key].hasCount ensures Exposed(all, c, key, true) {
      if key in p.tuples && p.tuples[key].hasCount {
        ExposedGrows(samples, s, c, key, true);
      } else {
        assert all[|samples|] == s;
      }
    }
    forall key | key in q.tuples && q.tuples[key].hasSum ensures Exposed(all, c, key, false) {
      if key in p.tuples && p.tuples[key].hasSum {
        ExposedGrows(samples, s, c, key, false);
      } else {
        assert all[|samples|] == s;
      }
    }
    assert FactOf(all[|samples|], c).Some?;
  }

  lemma {:induction false} FactCodes(s: ScrapedSample, t: ScrapedSample, c: Selector)
    requires DistinctNames(s.labels) && DistinctNames(t.labels) && FactOf(s, c).Some? && FactOf(t, c).Some?
    requires FactOf(s, c).value.key == FactOf(t, c).value.key
    ensures FactOf(s, c).value.code == FactOf(t, c).value.code
  {
    hide IdentityKey, Lookup, HasLabel;
    SameKeySameCode(s.labels, t.labels, c.printable);
  }

  lemma {:induction false} RecordsSkip(p: Population, samples: seq<ScrapedSample>, s: ScrapedSample, c: Selector)
    requires Records(p, samples, c) && FactOf(s, c).None?
    ensures Records(p, samples + [s], c)
  {
    hide Reading;
    var all := samples + [s];
    InitOfAppend(samples, s);
    forall key | key in p.tuples && p.tuples[key].hasCount ensures Exposed(all, c, key, true) {
      ExposedGrows(samples, s, c, key, true);
    }
    forall key | key in p.tuples && p.tuples[key].hasSum ensures Exposed(all, c, key, false) {
      ExposedGrows(samples, s, c, key, false);
    }
    if forall i :: 0 <= i < |all| ==> FactOf(all[i], c).None? {
      forall i | 0 <= i < |samples| ensures FactOf(samples[i], c).None? {
        assert all[i] == samples[i];
      }
    }
  }

  /** A recorded population admits a fact exactly if it fits every earlier one and the tuple limit. */
  lemma {:induction false} AdmitsIff(p: Population, samples: seq<ScrapedSample>, s: ScrapedSample, c: Selector)
    requires Records(p, samples, c) && |p.tuples| <= MAX_TUPLES && FactOf(s, c).Some?
    ensures Admits(p, FactOf(s, c).value) <==>
              && (forall i :: 0 <= i < |samples| ==> Compatible(FactOf(samples[i], c), FactOf(s, c)))
              && |Keys(samples + [s], c)| <= MAX_TUPLES
  {
    hide Reading;
    var f := FactOf(s, c).value;
    InitOfAppend(samples, s);
    assert |p.tuples| == |p.tuples.Keys|;
    InsertSize(p.tuples.Keys, f.key);
    if forall i :: 0 <= i < |samples| ==> Compatible(FactOf(samples[i], c), FactOf(s, c)) {
      PartIsFree(p, samples, s, c);
    } else {
      var i :| 0 <= i < |samples| && !Compatible(FactOf(samples[i], c), FactOf(s, c));
      MisfitIsRefused(p, samples, s, c, i);
    }
  }

  lemma {:induction false} MisfitIsRefused(p: Population, samples: seq<ScrapedSample>, s: ScrapedSample, c: Selector,
                                           i: nat)
    requires Records(p, samples, c) && i < |samples| && !Compatible(FactOf(samples[i], c), FactOf(s, c))
    ensures !Admits(p, FactOf(s, c).value)
  {
    hide Reading;
    FactNamesServer(samples[i], c);
    assert Keeps(p, FactOf(samples[i], c).value);
  }

  lemma {:induction false} FactNamesServer(s: ScrapedSample, c: Selector)
    requires FactOf(s, c).Some?
    ensures FactOf(s, c).value.server != ""
  {
    ReadingNamesServer(s, c);
  }

  lemma {:induction false} PartIsFree(p: Population, samples: seq<ScrapedSample>, s: ScrapedSample, c: Selector)
    requires Records(p, samples, c) && FactOf(s, c).Some?
    requires forall i :: 0 <= i < |samples| ==> Compatible(FactOf(samples[i], c), FactOf(s, c))
    ensures p.server == "" || p.server == FactOf(s, c).value.server
    ensures !HasPart(TupleAt(p.tuples, FactOf(s, c).value.key), FactOf(s, c).value.isCount)
  {
    hide Reading;
    var f := FactOf(s, c).value;
    forall i | 0 <= i < |samples| && FactOf(samples[i], c).Some? && FactOf(samples[i], c).value.key == f.key
      ensures FactOf(samples[i], c).value.isCount != f.isCount
    {
      assert Compatible(FactOf(samples[i], c), FactOf(s, c));
    }
    assert !Exposed(samples, c, f.key, f.isCount);
    if p.server != "" {
      var i :| 0 <= i < |samples| && FactOf(samples[i], c).Some?;
      assert Keeps(p, FactOf(samples[i], c).value) && Compatible(FactOf(samples[i], c), FactOf(s, c));
    }
  }

  lemma {:induction false} AcceptableGrows(samples: seq<ScrapedSample>, s: ScrapedSample, c: Selector)
    ensures Acceptable(samples + [s], c) <==>
              && Acceptable(samples, c) && Reading(s, c).Some?
              && (forall i :: 0 <= i < |samples| ==> Compatible(FactOf(samples[i], c), FactOf(s, c)))
              && |Keys(samples + [s], c)| <= MAX_TUPLES
  {
    hide Reading, FactOf, Compatible;
    var all := samples + [s];
    InitOfAppend(samples, s);
    KeysGrow(samples, s, c);
    if Acceptable(all, c) {
      forall i | 0 <= i < |samples|
        ensures Reading(samples[i], c).Some? && Compatible(FactOf(samples[i], c), FactOf(s, c)) {
        assert all[i] == samples[i] && all[|samples|] == s;
      }
      forall i, j | 0 <= i < j < |samples| ensures Compatible(FactOf(samples[i], c), FactOf(samples[j], c)) {
        assert all[i] == samples[i] && all[j] == samples[j];
      }
    }
  }

  lemma {:induction false} KeysGrow(samples: seq<ScrapedSample>, s: ScrapedSample, c: Selector)
    ensures |Keys(samples, c)| <= |Keys(samples + [s], c)|
    ensures FactOf(s, c).None? ==> Keys(samples + [s], c) == Keys(samples, c)
  {
    InitOfAppend(samples, s);
    if FactOf(s, c).Some? {
      InsertSize(Keys(samples, c), FactOf(s, c).value.key);
    }
  }

  /** A scrape is accepted exactly if every sample reads, one server matches, no part of a tuple is exposed twice and
      the tuples fit; the population is then exactly what was exposed. */
  lemma {:induction false} AcceptedExactly(samples: seq<ScrapedSample>, c: Selector)
    requires Parsed(samples)
    ensures Observed(samples, c).Some? <==> Acceptable(samples, c)
    ensures Observed(samples, c).Some? ==> Records(Observed(samples, c).value, samples, c)
  {
    hide Reading, Admits, Add, Compatible, Records, Acceptable, FactOf, Step;
    if samples == [] {
      AcceptedNothing(c);
    } else {
      var init, s := Init(samples), Last(samples);
      assert samples == init + [s];
      forall t | t in init ensures t in samples {}
      AcceptedExactly(init, c);
      AcceptableGrows(init, s, c);
      if Observed(init, c).Some? {
        AcceptedStep(Observed(init, c).value, init, s, c);
      } else {
        StepOfNone(s, c);
      }
    }
  }

  lemma {:induction false} AcceptedNothing(c: Selector)
    ensures Acceptable([], c) && Records(NOBODY, [], c)
  {
  }

  lemma {:induction false} StepOfNone(s: ScrapedSample, c: Selector)
    ensures Step(None, s, c).None?
  {
  }

  lemma {:induction false} AcceptedStep(p: Population, init: seq<ScrapedSample>, s: ScrapedSample, c: Selector)
    requires Parsed(init + [s]) && Acceptable(init, c) && Records(p, init, c)
    ensures Step(Some(p), s, c).Some? <==> Acceptable(init + [s], c)
    ensures Step(Some(p), s, c).Some? ==> Records(Step(Some(p), s, c).value, init + [s], c)
  {
    hide Reading, Admits, Add, Compatible, Step;
    StepReads(p, s, c);
    AcceptableGrows(init, s, c);
    assert |p.tuples| == |p.tuples.Keys|;
    if Reading(s, c).Some? && FactOf(s, c).Some? {
      AdmitsIff(p, init, s, c);
      if Admits(p, FactOf(s, c).value) {
        RecordsGrow(p, init, s, c);
      }
    } else if Reading(s, c).Some? {
      KeysGrow(init, s, c);
      NothingToCompare(init, s, c);
      RecordsSkip(p, init, s, c);
    }
  }

  lemma {:induction false} NothingToCompare(samples: seq<ScrapedSample>, s: ScrapedSample, c: Selector)
    requires FactOf(s, c).None?
    ensures forall i :: 0 <= i < |samples| ==> Compatible(FactOf(samples[i], c), FactOf(s, c))
  {
  }
}
