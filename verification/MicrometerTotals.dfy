/** What a Micrometer scrape emits, told from its complete series, their status codes and their label sets. */
module MicrometerTotals {
  import opened Common
  import opened Exposition
  import Averages
  import opened Micrometer

  /** A series whose labels the framework knows, with a finite value that is not negative. */
  predicate Complete(e: Exposed, validate: Validator) {
    validate(e.sample).Some? && e.sample.value.Finite? && e.sample.value.value >= 0.0
  }

  /** Values of the complete counts, of those with a status code from `low` to `high`, and of the complete durations. */
  function Counted(h: seq<Exposed>, validate: Validator): seq<real> {
    Averages.Given(h, (e: Exposed) =>
        if e.isCount && Complete(e, validate) then Some(e.sample.value.value) else None)
  }

  function CountedWith(h: seq<Exposed>, validate: Validator, low: int, high: Option<int>): seq<real> {
    Averages.Given(h, (e: Exposed) =>
        if e.isCount && Complete(e, validate) && low <= validate(e.sample).value
           && (high.Some? ==> validate(e.sample).value <= high.value)
        then Some(e.sample.value.value) else None)
  }

  function Timed(h: seq<Exposed>, validate: Validator): seq<real> {
    Averages.Given(h, (e: Exposed) =>
        if !e.isCount && Complete(e, validate) then Some(e.sample.value.value) else None)
  }

  /** Two complete series of one side have the same labels. */
  ghost predicate Twice(h: seq<Exposed>, isCount: bool, validate: Validator) {
    exists i, j :: 0 <= i < j < |h| && h[i].isCount == h[j].isCount == isCount
                   && Complete(h[i], validate) && Complete(h[j], validate)
                   && multiset(h[i].sample.labels) == multiset(h[j].sample.labels)
  }

  /** The label sets of the complete series of one side. */
  function LabelSets(h: seq<Exposed>, isCount: bool, validate: Validator): set<multiset<Label>> {
    set e | e in h && e.isCount == isCount && Complete(e, validate) :: multiset(e.sample.labels)
  }

  predicate Shows(out: Option<real>, emitted: bool, vs: seq<real>, limit: real) {
    && (out.Some? <==> emitted && Averages.Sum(vs) <= limit)
    && (out.Some? ==> out.value == Averages.Sum(vs))
  }

  /** Totals are emitted if there is a complete count, no label set is counted twice, and at most 20000 label sets occur
      on both sides together; those of status classes moreover if no count is incomplete; the request time if the same
      label sets are timed, each once. A total that is no finite number is not emitted. */
  ghost predicate Emits(out: Emission, h: seq<Exposed>, validate: Validator, limit: real) {
    var counts, times := LabelSets(h, true, validate), LabelSets(h, false, validate);
    var counted := counts != {} && !Twice(h, true, validate) && |counts| + |times| <= 20000;
    var classed := counted && forall e :: e in h && e.isCount ==> Complete(e, validate);
    && Shows(out.requests, counted, Counted(h, validate), limit)
    && Shows(out.notFound, classed, CountedWith(h, validate, 404, Some(404)), limit)
    && Shows(out.clientErrors, classed, CountedWith(h, validate, 400, Some(499)), limit)
    && Shows(out.serverErrors, classed, CountedWith(h, validate, 500, None), limit)
    && Shows(out.seconds, counted && !Twice(h, false, validate) && counts == times, Timed(h, validate), limit)
  }

  lemma {:induction false} SumIsGiven(h: seq<Exposed>, m: Measure, validate: Validator,
                                      value: Exposed -> Option<real>)
    requires forall e :: Weight(e, m, validate) == if value(e).Some? then value(e).value else 0.0
    ensures Micrometer.Sum(h, m, validate) == Averages.Sum(Averages.Given(h, value))
  {
    hide Weight, Micrometer.Sum;
    if h == [] {
      NoSum(m, validate);
    } else {
      var init, e := Init(h), Last(h);
      assert h == init + [e];
      SumIsGiven(init, m, validate, value);
      SumNext(init, e, m, validate);
      Averages.GivenNext(init, e, value);
      var given := Averages.Given(init, value);
      if value(e).Some? {
        Averages.SumNext(given, value(e).value);
      } else {
        assert given + [] == given;
      }
    }
  }

  lemma {:induction false} NoSum(m: Measure, validate: Validator)
    ensures Micrometer.Sum([], m, validate) == 0.0
  {
  }

  lemma {:induction false} SumsMean(h: seq<Exposed>, validate: Validator)
    ensures Micrometer.Sum(h, Requests, validate) == Averages.Sum(Counted(h, validate))
    ensures Micrometer.Sum(h, Seconds, validate) == Averages.Sum(Timed(h, validate))
  {
    SumIsGiven(h, Requests, validate, (e: Exposed) =>
        if e.isCount && Complete(e, validate) then Some(e.sample.value.value) else None);
    SumIsGiven(h, Seconds, validate, (e: Exposed) =>
        if !e.isCount && Complete(e, validate) then Some(e.sample.value.value) else None);
  }

  lemma {:induction false} ClassMeans(h: seq<Exposed>, validate: Validator, m: Measure, low: int, high: Option<int>)
    requires m.NotFound? || m.ClientErrors? || m.ServerErrors?
    requires low == (if m.NotFound? then 404 else if m.ClientErrors? then 400 else 500)
    requires high == if m.NotFound? then Some(404) else if m.ClientErrors? then Some(499) else None
    ensures Micrometer.Sum(h, m, validate) == Averages.Sum(CountedWith(h, validate, low, high))
  {
    SumIsGiven(h, m, validate, (e: Exposed) =>
        if e.isCount && Complete(e, validate) && low <= validate(e.sample).value
           && (high.Some? ==> validate(e.sample).value <= high.value)
        then Some(e.sample.value.value) else None);
  }

  lemma {:induction false} SidesMean(h: seq<Exposed>, isCount: bool, validate: Validator)
    ensures Ids(h, isCount, validate) == LabelSets(h, isCount, validate)
    ensures Repeats(h, isCount, validate) <==> Twice(h, isCount, validate)
    ensures SawIncomplete(h, isCount, validate) <==>
              exists e :: e in h && e.isCount == isCount && !Complete(e, validate)
  {
    assert SawIncomplete(h, isCount, validate) <==> exists e :: e in h && Incomplete(e, isCount, validate);
  }

  /** The emitted totals are those that the exposed series call for. */
  lemma {:induction false} EmittedExactly(h: seq<Exposed>, validate: Validator, limit: real)
    ensures Emits(Emitted(h, validate, limit), h, validate, limit)
  {
    hide Micrometer.Sum, Counted, CountedWith, Timed, Ids, LabelSets, Repeats, Twice, SawIncomplete;
    SumsMean(h, validate);
    ClassMeans(h, validate, NotFound, 404, Some(404));
    ClassMeans(h, validate, ClientErrors, 400, Some(499));
    ClassMeans(h, validate, ServerErrors, 500, None);
    SidesMean(h, true, validate);
    SidesMean(h, false, validate);
  }
}
