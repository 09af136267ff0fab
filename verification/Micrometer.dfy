/** Streaming aggregation of Micrometer HTTP timer series: counts and durations matched by label set. */
module Micrometer {
  import opened Common
  import opened Exposition
  import opened Folds

  /** The identity of a series: its labels in any order. The fingerprint of the program is taken to tell label sets
      apart. */
  type Identity = multiset<Label>

  /** A framework's label check: the HTTP status of a complete label set. */
  type Validator = ScrapedSample -> Option<int>

  /** One accepted call: a `_count` or a `_sum` series. */
  datatype Exposed = Exposed(isCount: bool, sample: ScrapedSample)

  const MATCHING_STATE_LIMIT := 20_000

  datatype Measure = Requests | NotFound | ClientErrors | ServerErrors | Seconds

  // ---------- What a list of exposed series amounts to ----------

  predicate Good(e: Exposed, isCount: bool, validate: Validator) {
    e.isCount == isCount && validate(e.sample).Some? && FiniteNonnegative(e.sample.value)
  }

  predicate Incomplete(e: Exposed, isCount: bool, validate: Validator) {
    e.isCount == isCount && !Good(e, isCount, validate)
  }

  predicate Counts(code: int, m: Measure) {
    match m
    case Requests => true
    case NotFound => code == 404
    case ClientErrors => 400 <= code <= 499
    case ServerErrors => code >= 500
    case Seconds => true
  }

  /** What a series adds to a measure. */
  function Weight(e: Exposed, m: Measure, validate: Validator): (w: real)
    ensures w >= 0.0
  {
    if Good(e, m != Seconds, validate) && Counts(validate(e.sample).value, m) then e.sample.value.value else 0.0
  }

  function Adder(m: Measure, validate: Validator): (real, Exposed) -> real {
    (sum, e) => sum + Weight(e, m, validate)
  }

  function Sum(h: seq<Exposed>, m: Measure, validate: Validator): real {
    Fold(Adder(m, validate), 0.0, h)
  }

  function Tallier(isCount: bool, validate: Validator): (int, Exposed) -> int {
    (n, e) => if Good(e, isCount, validate) then n + 1 else n
  }

  /** How many complete series there are on a side, with repetitions. */
  function Occurrences(h: seq<Exposed>, isCount: bool, validate: Validator): int {
    Fold(Tallier(isCount, validate), 0, h)
  }

  /** The identities of the complete series on a side. */
  function Ids(h: seq<Exposed>, isCount: bool, validate: Validator): set<Identity> {
    set e | e in h && Good(e, isCount, validate) :: multiset(e.sample.labels)
  }

  predicate SawIncomplete(h: seq<Exposed>, isCount: bool, validate: Validator) {
    exists i :: 0 <= i < |h| && Incomplete(h[i], isCount, validate)
  }

  /** Some identity is exposed twice on a side. */
  predicate Repeats(h: seq<Exposed>, isCount: bool, validate: Validator) {
    exists i, j :: 0 <= i < j < |h| && Good(h[i], isCount, validate) && Good(h[j], isCount, validate)
                   && multiset(h[i].sample.labels) == multiset(h[j].sample.labels)
  }

  predicate TooManyStates(h: seq<Exposed>, validate: Validator) {
    |Ids(h, true, validate)| + |Ids(h, false, validate)| > MATCHING_STATE_LIMIT
  }

  /** The five totals a scrape yields. */
  datatype Emission = Emission(
    requests: Option<real>,
    notFound: Option<real>,
    clientErrors: Option<real>,
    serverErrors: Option<real>,
    seconds: Option<real>)

  function Within(sum: real, usable: bool, limit: real): Option<real> {
    if usable && sum <= limit then Some(sum) else None
  }

  /** The totals in terms of the exposed series alone; `limit` is the greatest finite number. */
  function Emitted(h: seq<Exposed>, validate: Validator, limit: real): Emission {
    var counted := Ids(h, true, validate) != {} && !Repeats(h, true, validate) && !TooManyStates(h, validate);
    var classed := counted && !SawIncomplete(h, true, validate);
    var matched := counted && !Repeats(h, false, validate) && Ids(h, true, validate) == Ids(h, false, validate);
    Emission(
      Within(Sum(h, Requests, validate), counted, limit),
      Within(Sum(h, NotFound, validate), classed, limit),
      Within(Sum(h, ClientErrors, validate), classed, limit),
      Within(Sum(h, ServerErrors, validate), classed, limit),
      Within(Sum(h, Seconds, validate), matched, limit))
  }

  // ---------- The emission does not see the order ----------

  lemma {:induction false} SumOfPermutation(a: seq<Exposed>, b: seq<Exposed>, m: Measure, validate: Validator)
    requires multiset(a) == multiset(b)
    ensures Sum(a, m, validate) == Sum(b, m, validate)
  {
    hide Weight;
    FoldOfPermutation(Adder(m, validate), 0.0, a, b);
  }

  lemma {:induction false} OccurrencesOfPermutation(a: seq<Exposed>, b: seq<Exposed>, isCount: bool,
                                                    validate: Validator)
    requires multiset(a) == multiset(b)
    ensures Occurrences(a, isCount, validate) == Occurrences(b, isCount, validate)
  {
    hide Good;
    FoldOfPermutation(Tallier(isCount, validate), 0, a, b);
  }

  lemma {:induction false} IdsNext(h: seq<Exposed>, e: Exposed, isCount: bool, validate: Validator)
    ensures Ids(h + [e], isCount, validate) ==
            if Good(e, isCount, validate) then Ids(h, isCount, validate) + {multiset(e.sample.labels)}
            else Ids(h, isCount, validate)
  {
    hide Good;
    assert forall x :: x in h + [e] <==> x in h || x == e;
  }

  lemma {:induction false} IdsSource(h: seq<Exposed>, isCount: bool, validate: Validator, id: Identity) returns (i: nat)
    requires id in Ids(h, isCount, validate)
    ensures i < |h| && Good(h[i], isCount, validate) && multiset(h[i].sample.labels) == id
  {
    hide Good;
    var e :| e in h && Good(e, isCount, validate) && multiset(e.sample.labels) == id;
    i :| 0 <= i < |h| && h[i] == e;
  }

  lemma {:induction false} IdsHold(h: seq<Exposed>, isCount: bool, validate: Validator, i: nat)
    requires i < |h| && Good(h[i], isCount, validate)
    ensures multiset(h[i].sample.labels) in Ids(h, isCount, validate)
  {
    hide Good;
    assert h[i] in h;
  }

  lemma {:induction false} RepeatsNext(h: seq<Exposed>, e: Exposed, isCount: bool, validate: Validator)
    ensures Repeats(h + [e], isCount, validate) <==>
              Repeats(h, isCount, validate)
              || (Good(e, isCount, validate) && multiset(e.sample.labels) in Ids(h, isCount, validate))
  {
    hide Good, Ids;
    var all, n := h + [e], |h|;
    if Good(e, isCount, validate) && multiset(e.sample.labels) in Ids(h, isCount, validate) {
      var i := IdsSource(h, isCount, validate, multiset(e.sample.labels));
      assert all[i] == h[i] && all[n] == e;
    }
    if Repeats(h, isCount, validate) {
      var i, j :| 0 <= i < j < n && Good(h[i], isCount, validate) && Good(h[j], isCount, validate)
                  && multiset(h[i].sample.labels) == multiset(h[j].sample.labels);
      assert all[i] == h[i] && all[j] == h[j];
    }
    if Repeats(all, isCount, validate) {
      var i, j :| 0 <= i < j < n + 1 && Good(all[i], isCount, validate) && Good(all[j], isCount, validate)
                  && multiset(all[i].sample.labels) == multiset(all[j].sample.labels);
      assert all[i] == h[i];
      IdsHold(h, isCount, validate, i);
      if j < n {
        assert all[j] == h[j];
      }
    }
  }

  /** A repeated identity is one series too many for the number of identities. */
  lemma {:induction false} RepeatsIffTooMany(h: seq<Exposed>, isCount: bool, validate: Validator)
    ensures Occurrences(h, isCount, validate) >= |Ids(h, isCount, validate)|
    ensures Repeats(h, isCount, validate) <==> Occurrences(h, isCount, validate) > |Ids(h, isCount, validate)|
  {
    hide Good, Ids, Repeats;
    if h == [] {
      NothingExposed(isCount, validate);
    } else {
      var init, e := Init(h), Last(h);
      assert h == init + [e];
      RepeatsIffTooMany(init, isCount, validate);
      IdsNext(init, e, isCount, validate);
      RepeatsNext(init, e, isCount, validate);
      InsertSize(Ids(init, isCount, validate), multiset(e.sample.labels));
    }
  }

  lemma {:induction false} NothingExposed(isCount: bool, validate: Validator)
    ensures Ids([], isCount, validate) == {} && !Repeats([], isCount, validate) && !SawIncomplete([], isCount, validate)
  {
  }

  lemma {:induction false} SidesOfPermutation(a: seq<Exposed>, b: seq<Exposed>, isCount: bool, validate: Validator)
    requires multiset(a) == multiset(b)
    ensures Ids(a, isCount, validate) == Ids(b, isCount, validate)
    ensures Repeats(a, isCount, validate) == Repeats(b, isCount, validate)
    ensures SawIncomplete(a, isCount, validate) == SawIncomplete(b, isCount, validate)
  {
    hide Good, Incomplete, Repeats;
    SameMembers(a, b);
    RepeatsIffTooMany(a, isCount, validate);
    RepeatsIffTooMany(b, isCount, validate);
    OccurrencesOfPermutation(a, b, isCount, validate);
    assert SawIncomplete(a, isCount, validate) <==> exists e :: e in a && Incomplete(e, isCount, validate);
    assert SawIncomplete(b, isCount, validate) <==> exists e :: e in b && Incomplete(e, isCount, validate);
  }

  /** The emitted totals depend only on which series were exposed, not on their order. */
  lemma {:induction false} OrderIsNotEmitted(a: seq<Exposed>, b: seq<Exposed>, validate: Validator, limit: real)
    requires multiset(a) == multiset(b)
    ensures Emitted(a, validate, limit) == Emitted(b, validate, limit)
  {
    hide Ids, Repeats, SawIncomplete, Sum;
    SidesOfPermutation(a, b, true, validate);
    SidesOfPermutation(a, b, false, validate);
    SumOfPermutation(a, b, Requests, validate);
    SumOfPermutation(a, b, NotFound, validate);
    SumOfPermutation(a, b, ClientErrors, validate);
    SumOfPermutation(a, b, ServerErrors, validate);
    SumOfPermutation(a, b, Seconds, validate);
  }

  // ---------- Running totals and matched identities ----------

  function AddFiniteNonnegative(total: real, value: real, limit: real): (real, bool) {
    if total + value > limit then (total, false) else (total + value, true)
  }

  /** A running total that refuses what would pass the limit, and remembers that it did. */
  datatype Running = Running(total: real, overflow: bool)

  const NOTHING := Running(0.0, false)

  function Plus(r: Running, value: real, limit: real): Running {
    var (total, added) := AddFiniteNonnegative(r.total, value, limit);
    Running(total, r.overflow || !added)
  }

  ghost predicate Tracks(r: Running, sum: real, limit: real) {
    0.0 <= r.total <= sum && (r.overflow <==> sum > limit) && (!r.overflow ==> r.total == sum)
  }

  /** Refusing single values notices exactly the sums that pass the limit. */
  lemma {:induction false} TracksNext(r: Running, sum: real, limit: real, value: real)
    requires Tracks(r, sum, limit) && value >= 0.0
    ensures Tracks(Plus(r, value, limit), sum + value, limit)
  {
  }

  /** The matched identities of one side. */
  type Dimensions = map<Identity, int>

  datatype Budget = Budget(states: nat, overflow: bool)

  /** Counts one more identity on a side unless the shared budget is spent. */
  function WithDimension(groups: Dimensions, key: Identity, budget: Budget): (Dimensions, Budget) {
    if budget.overflow then (groups, budget)
    else if key in groups then (groups[key := groups[key] + 1], budget)
    else if budget.states == MATCHING_STATE_LIMIT then (groups, budget.(overflow := true))
    else (groups[key := 1], budget.(states := budget.states + 1))
  }

  ghost predicate Holds(dimensions: Dimensions, ids: set<Identity>) {
    dimensions.Keys == ids && forall id :: id in dimensions ==> dimensions[id] == 1
  }

  /** Identities of a side and of the other side are exact until they are too many; then only the overflow matters. */
  ghost predicate Matched(h: seq<Exposed>, validate: Validator, isCount: bool, mine: Dimensions, other: Dimensions,
                          budget: Budget, repeats: bool, otherRepeats: bool)
  {
    var ids, otherIds := Ids(h, isCount, validate), Ids(h, !isCount, validate);
    && (budget.overflow <==> |ids| + |otherIds| > MATCHING_STATE_LIMIT)
    && mine.Keys <= ids && other.Keys <= otherIds
    && (forall id :: id in mine ==> mine[id] == 1)
    && (forall id :: id in other ==> other[id] == 1)
    && (!budget.overflow ==>
          && Holds(mine, ids) && Holds(other, otherIds) && budget.states == |ids| + |otherIds|
          && (repeats <==> Repeats(h, isCount, validate)) && (otherRepeats <==> Repeats(h, !isCount, validate)))
  }

  lemma {:induction false} MatchedFlips(h: seq<Exposed>, validate: Validator, isCount: bool, mine: Dimensions,
                                        other: Dimensions, budget: Budget, repeats: bool, otherRepeats: bool)
    ensures Matched(h, validate, isCount, mine, other, budget, repeats, otherRepeats) <==>
            Matched(h, validate, !isCount, other, mine, budget, otherRepeats, repeats)
  {
    hide Ids, Repeats;
  }

  lemma {:induction false} MatchedSkips(h: seq<Exposed>, e: Exposed, validate: Validator, isCount: bool,
                                        mine: Dimensions,
                                        other: Dimensions, budget: Budget, repeats: bool, otherRepeats: bool)
    requires Matched(h, validate, isCount, mine, other, budget, repeats, otherRepeats)
    requires e.isCount == isCount && !Good(e, isCount, validate)
    ensures Matched(h + [e], validate, isCount, mine, other, budget, repeats, otherRepeats)
  {
    hide Ids, Repeats, FiniteNonnegative, SawIncomplete, Incomplete;
    NextSeries(h, e, isCount, validate);
    NextSeries(h, e, !isCount, validate);
  }

  lemma {:induction false} MatchedRepeats(h: seq<Exposed>, e: Exposed, validate: Validator, isCount: bool,
                                          mine: Dimensions,
                                          other: Dimensions, budget: Budget, repeats: bool, otherRepeats: bool)
    requires Matched(h, validate, isCount, mine, other, budget, repeats, otherRepeats)
    requires Good(e, isCount, validate) && multiset(e.sample.labels) in mine
    ensures Matched(h + [e], validate, isCount, mine, other, budget, true, otherRepeats)
    ensures Ids(h + [e], isCount, validate) == Ids(h, isCount, validate) != {}
  {
    hide Ids, Repeats;
    NextSeries(h, e, isCount, validate);
    NextSeries(h, e, !isCount, validate);
    InsertSize(Ids(h, isCount, validate), multiset(e.sample.labels));
    assert Ids(h + [e], isCount, validate) == Ids(h, isCount, validate);
  }

  lemma {:induction false} SpentStaysSpent(groups: Dimensions, key: Identity, budget: Budget)
    ensures budget.overflow ==> WithDimension(groups, key, budget).1.overflow
  {
  }

  lemma {:induction false} NotIncomplete(e: Exposed, isCount: bool, validate: Validator)
    requires Good(e, isCount, validate)
    ensures !Incomplete(e, isCount, validate) && !Good(e, !isCount, validate)
  {
  }

  lemma {:induction false} MatchedGrows(h: seq<Exposed>, e: Exposed, validate: Validator, isCount: bool,
                                        mine: Dimensions,
                                        other: Dimensions, budget: Budget, repeats: bool, otherRepeats: bool)
    requires Matched(h, validate, isCount, mine, other, budget, repeats, otherRepeats)
    requires Good(e, isCount, validate) && multiset(e.sample.labels) !in mine
    ensures
      var (mine', budget') := WithDimension(mine, multiset(e.sample.labels), budget);
      Matched(h + [e], validate, isCount, mine', other, budget', repeats, otherRepeats)
    ensures Ids(h + [e], isCount, validate) != {}
  {
    hide Ids, Repeats;
    NextSeries(h, e, isCount, validate);
    NextSeries(h, e, !isCount, validate);
    InsertSize(Ids(h, isCount, validate), multiset(e.sample.labels));
  }

  // ---------- The streaming accumulator ----------

  class HttpValues {
    const validate: Validator
    const limit: real
    var requests: Running
    var notFound: Running
    var clientErrors: Running
    var serverErrors: Running
    var seconds: Running
    var sawCount: bool
    var sawDuration: bool
    var incompleteCount: bool
    var incompleteSum: bool
    var countDimensions: Dimensions
    var durationDimensions: Dimensions
    var matching: Budget
    var countDuplicate: bool
    var durationDuplicate: bool
    /** The series accepted so far, in exposition order. */
    ghost var history: seq<Exposed>

    constructor (validate: Validator, limit: real)
      requires limit >= 0.0
      ensures this.validate == validate && this.limit == limit && Valid() && history == []
    {
      this.validate, this.limit := validate, limit;
      requests, notFound, clientErrors, serverErrors, seconds := NOTHING, NOTHING, NOTHING, NOTHING, NOTHING;
      sawCount, sawDuration, incompleteCount, incompleteSum := false, false, false, false;
      countDimensions, durationDimensions, matching := map[], map[], Budget(0, false);
      countDuplicate, durationDuplicate := false, false;
      history := [];
      NothingExposed(true, validate);
      NothingExposed(false, validate);
    }

    /** Identities, flags and sums agree with the history; sums count while every complete series was taken. */
    ghost predicate Valid()
      reads this
    {
      && limit >= 0.0
      && (sawCount <==> Ids(history, true, validate) != {})
      && (sawDuration <==> Ids(history, false, validate) != {})
      && (incompleteCount <==> SawIncomplete(history, true, validate))
      && Matched(history, validate, true, countDimensions, durationDimensions, matching, countDuplicate,
                 durationDuplicate)
      && (!matching.overflow && !countDuplicate ==>
            CountsTracked(history, validate, limit, CountTotals(requests, notFound, clientErrors, serverErrors)))
      && (!matching.overflow && !durationDuplicate ==> Tracks(seconds, Sum(history, Seconds, validate), limit))
    }

    method AcceptCount(sample: ScrapedSample)
      requires Valid()
      modifies this
      ensures Valid() && history == old(history) + [Exposed(true, sample)]
    {
      hide Ids, Repeats, SawIncomplete, Sum, Matched, CountsTracked, Tracks, Weight;
      ghost var h, e := history, Exposed(true, sample);
      NextSeries(h, e, true, validate);
      NextSeries(h, e, false, validate);
      if validate(sample).None? || !FiniteNonnegative(sample.value) {
        MatchedSkips(h, e, validate, true, countDimensions, durationDimensions, matching, countDuplicate,
                     durationDuplicate);
        SkippedIsTracked(h, e, validate, limit, CountTotals(requests, notFound, clientErrors, serverErrors));
        SkippedSeconds(h, e, validate);
        incompleteCount := true;
        history := history + [e];
        return;
      }
      var dimension := multiset(sample.labels);
      OnesOnly(h, validate, true, countDimensions, durationDimensions, matching, countDuplicate, durationDuplicate);
      if dimension in countDimensions && countDimensions[dimension] > 0 {
        MatchedRepeats(h, e, validate, true, countDimensions, durationDimensions, matching, countDuplicate,
                       durationDuplicate);
        SkippedSeconds(h, e, validate);
        countDuplicate := true;
        history := history + [e];
        return;
      }
      TakeCount(sample, dimension);
    }

    /** A complete count with a new identity. */
    method TakeCount(sample: ScrapedSample, dimension: Identity)
      requires Valid() && Good(Exposed(true, sample), true, validate)
      requires dimension == multiset(sample.labels) && dimension !in countDimensions
      modifies this
      ensures Valid() && history == old(history) + [Exposed(true, sample)]
    {
      hide Ids, Repeats, SawIncomplete, Sum, Matched, CountsTracked, Tracks, Weight, Added, WithDimension, Incomplete;
      ghost var h, e := history, Exposed(true, sample);
      NextSeries(h, e, true, validate);
      NextSeries(h, e, false, validate);
      NotIncomplete(e, true, validate);
      SkippedSeconds(h, e, validate);
      SpentStaysSpent(countDimensions, dimension, matching);
      MatchedGrows(h, e, validate, true, countDimensions, durationDimensions, matching, countDuplicate,
                   durationDuplicate);
      ghost var before := CountTotals(requests, notFound, clientErrors, serverErrors);
      AddCounts(validate(sample).value, sample.value.value);
      CountIsTracked(h, e, validate, limit, before, CountTotals(requests, notFound, clientErrors, serverErrors));
      var step := WithDimension(countDimensions, dimension, matching);
      sawCount, countDimensions, matching, history := true, step.0, step.1, history + [e];
    }

    /** Adds a value to the request total and to the totals of its status class. */
    method AddCounts(code: int, value: real)
      modifies this`requests, this`notFound, this`clientErrors, this`serverErrors
      ensures Added(code, value, limit,
                    CountTotals(old(requests), old(notFound), old(clientErrors), old(serverErrors)),
                    CountTotals(requests, notFound, clientErrors, serverErrors))
    {
      requests := Plus(requests, value, limit);
      if code == 404 {
        notFound := Plus(notFound, value, limit);
      }
      if 400 <= code <= 499 {
        clientErrors := Plus(clientErrors, value, limit);
      }
      if code >= 500 {
        serverErrors := Plus(serverErrors, value, limit);
      }
    }

    method AcceptDuration(sample: ScrapedSample)
      requires Valid()
      modifies this
      ensures Valid() && history == old(history) + [Exposed(false, sample)]
    {
      hide Ids, Repeats, SawIncomplete, Sum, Matched, CountsTracked, Tracks, Weight;
      ghost var h, e := history, Exposed(false, sample);
      NextSeries(h, e, true, validate);
      NextSeries(h, e, false, validate);
      SkippedIsTracked(h, e, validate, limit, CountTotals(requests, notFound, clientErrors, serverErrors));
      MatchedFlips(h, validate, true, countDimensions, durationDimensions, matching, countDuplicate, durationDuplicate);
      if validate(sample).None? || !FiniteNonnegative(sample.value) {
        MatchedSkips(h, e, validate, false, durationDimensions, countDimensions, matching, durationDuplicate,
                     countDuplicate);
        MatchedFlips(h + [e], validate, true, countDimensions, durationDimensions, matching, countDuplicate,
                     durationDuplicate);
        SkippedSeconds(h, e, validate);
        incompleteSum := true;
        history := history + [e];
        return;
      }
      var dimension := multiset(sample.labels);
      OnesOnly(h, validate, false, durationDimensions, countDimensions, matching, durationDuplicate, countDuplicate);
      if dimension in durationDimensions && durationDimensions[dimension] > 0 {
        MatchedRepeats(h, e, validate, false, durationDimensions, countDimensions, matching, durationDuplicate,
                       countDuplicate);
        durationDuplicate := true;
        MatchedFlips(h + [e], validate, true, countDimensions, durationDimensions, matching, countDuplicate,
                     durationDuplicate);
        history := history + [e];
        return;
      }
      TakeDuration(sample, dimension);
    }

    /** A complete duration with a new identity. */
    method TakeDuration(sample: ScrapedSample, dimension: Identity)
      requires Valid() && Good(Exposed(false, sample), false, validate)
      requires dimension == multiset(sample.labels) && dimension !in durationDimensions
      modifies this
      ensures Valid() && history == old(history) + [Exposed(false, sample)]
    {
      hide Ids, Repeats, SawIncomplete, Sum, Matched, CountsTracked, Tracks, Plus, Weight;
      ghost var h, e := history, Exposed(false, sample);
      NextSeries(h, e, true, validate);
      NextSeries(h, e, false, validate);
      SkippedIsTracked(h, e, validate, limit, CountTotals(requests, notFound, clientErrors, serverErrors));
      MatchedFlips(h, validate, true, countDimensions, durationDimensions, matching, countDuplicate, durationDuplicate);
      MatchedGrows(h, e, validate, false, durationDimensions, countDimensions, matching, durationDuplicate,
                   countDuplicate);
      SecondsAreTracked(h, e, validate, limit, seconds);
      sawDuration := true;
      seconds := Plus(seconds, sample.value.value, limit);
      var step := WithDimension(durationDimensions, dimension, matching);
      durationDimensions, matching := step.0, step.1;
      MatchedFlips(h + [e], validate, true, countDimensions, durationDimensions, matching, countDuplicate,
                   durationDuplicate);
      history := history + [e];
    }

    /** Durations are meaningful only for exactly the counted series. */
    method DurationMatchesCounts() returns (matches: bool)
      requires Valid()
      ensures matches <==>
                && !TooManyStates(history, validate) && Sum(history, Seconds, validate) <= limit
                && !Repeats(history, true, validate) && !Repeats(history, false, validate)
                && Ids(history, true, validate) != {} && Ids(history, true, validate) == Ids(history, false, validate)
    {
      hide Ids, Repeats, SawIncomplete, Sum, CountsTracked;
      if matching.overflow || seconds.overflow || countDuplicate || durationDuplicate || !sawCount || !sawDuration
         || |countDimensions| != |durationDimensions|
      {
        return false;
      }
      var rest := countDimensions.Keys;
      while rest != {}
        invariant rest <= countDimensions.Keys
        invariant forall id :: id in countDimensions && id !in rest ==> id in durationDimensions
        decreases rest
      {
        var id :| id in rest;
        if id !in durationDimensions || durationDimensions[id] != countDimensions[id] {
          return false;
        }
        rest := rest - {id};
      }
      SameSizeSubset(countDimensions.Keys, durationDimensions.Keys);
      matches := true;
    }

    /** The totals of everything accepted. */
    method AddTo() returns (emission: Emission)
      requires Valid()
      ensures emission == Emitted(history, validate, limit)
    {
      hide Ids, Repeats, SawIncomplete, Sum;
      emission := Emission(None, None, None, None, None);
      if sawCount && !requests.overflow && !countDuplicate && !matching.overflow {
        emission := emission.(requests := Some(requests.total));
      }
      if sawCount && !incompleteCount && !countDuplicate && !matching.overflow {
        if !notFound.overflow {
          emission := emission.(notFound := Some(notFound.total));
        }
        if !clientErrors.overflow {
          emission := emission.(clientErrors := Some(clientErrors.total));
        }
        if !serverErrors.overflow {
          emission := emission.(serverErrors := Some(serverErrors.total));
        }
      }
      var matches := DurationMatchesCounts();
      if matches {
        emission := emission.(seconds := Some(seconds.total));
      }
    }
  }

  datatype CountTotals = CountTotals(requests: Running, notFound: Running, clientErrors: Running, serverErrors: Running)

  /** A count joins the request total and the totals of its status class. */
  ghost predicate Added(code: int, value: real, limit: real, before: CountTotals, after: CountTotals) {
    && after.requests == Plus(before.requests, value, limit)
    && after.notFound == (if Counts(code, NotFound) then Plus(before.notFound, value, limit) else before.notFound)
    && after.clientErrors ==
       (if Counts(code, ClientErrors) then Plus(before.clientErrors, value, limit) else before.clientErrors)
    && after.serverErrors ==
       (if Counts(code, ServerErrors) then Plus(before.serverErrors, value, limit) else before.serverErrors)
  }

  ghost predicate CountsTracked(h: seq<Exposed>, validate: Validator, limit: real, totals: CountTotals) {
    && Tracks(totals.requests, Sum(h, Requests, validate), limit)
    && Tracks(totals.notFound, Sum(h, NotFound, validate), limit)
    && Tracks(totals.clientErrors, Sum(h, ClientErrors, validate), limit)
    && Tracks(totals.serverErrors, Sum(h, ServerErrors, validate), limit)
  }

  lemma {:induction false} SkippedIsTracked(h: seq<Exposed>, e: Exposed, validate: Validator, limit: real,
                                            totals: CountTotals)
    requires !Good(e, true, validate)
    ensures CountsTracked(h, validate, limit, totals) ==> CountsTracked(h + [e], validate, limit, totals)
  {
    hide Sum, Tracks;
    SumsNext(h, e, validate);
  }

  lemma {:induction false} SkippedSeconds(h: seq<Exposed>, e: Exposed, validate: Validator)
    requires !Good(e, false, validate)
    ensures Sum(h + [e], Seconds, validate) == Sum(h, Seconds, validate)
  {
    hide Sum;
    SumsNext(h, e, validate);
  }

  lemma {:induction false} SecondsAreTracked(h: seq<Exposed>, e: Exposed, validate: Validator, limit: real,
                                             seconds: Running)
    requires Good(e, false, validate)
    ensures Tracks(seconds, Sum(h, Seconds, validate), limit) ==>
            Tracks(Plus(seconds, e.sample.value.value, limit), Sum(h + [e], Seconds, validate), limit)
  {
    hide Sum;
    SumsNext(h, e, validate);
  }

  lemma {:induction false} CountIsTracked(h: seq<Exposed>, e: Exposed, validate: Validator, limit: real,
                                          before: CountTotals, after: CountTotals)
    requires Good(e, true, validate) && Added(validate(e.sample).value, e.sample.value.value, limit, before, after)
    ensures CountsTracked(h, validate, limit, before) ==> CountsTracked(h + [e], validate, limit, after)
  {
    hide Sum, Tracks, Plus;
    var value := e.sample.value.value;
    if CountsTracked(h, validate, limit, before) {
      SumsNext(h, e, validate);
      TracksNext(before.requests, Sum(h, Requests, validate), limit, value);
      TracksNext(before.notFound, Sum(h, NotFound, validate), limit, value);
      TracksNext(before.clientErrors, Sum(h, ClientErrors, validate), limit, value);
      TracksNext(before.serverErrors, Sum(h, ServerErrors, validate), limit, value);
    }
  }

  lemma {:induction false} OnesOnly(h: seq<Exposed>, validate: Validator, isCount: bool, mine: Dimensions,
                                    other: Dimensions, budget: Budget, repeats: bool, otherRepeats: bool)
    requires Matched(h, validate, isCount, mine, other, budget, repeats, otherRepeats)
    ensures forall id :: id in mine ==> mine[id] == 1
  {
  }

  lemma {:induction false} SameSizeSubset<T>(a: set<T>, b: set<T>)
    requires a <= b && |a| == |b|
    ensures a == b
  {
    assert b == a + (b - a);
    assert |b - a| == 0;
  }

  lemma {:induction false} SawIncompleteNext(h: seq<Exposed>, e: Exposed, isCount: bool, validate: Validator)
    ensures SawIncomplete(h + [e], isCount, validate) <==>
              SawIncomplete(h, isCount, validate) || Incomplete(e, isCount, validate)
  {
    hide Incomplete;
    assert (h + [e])[|h|] == e;
    if SawIncomplete(h, isCount, validate) {
      var i :| 0 <= i < |h| && Incomplete(h[i], isCount, validate);
      assert (h + [e])[i] == h[i];
    }
  }

  lemma {:induction false} SumNext(h: seq<Exposed>, e: Exposed, m: Measure, validate: Validator)
    ensures Sum(h + [e], m, validate) == Sum(h, m, validate) + Weight(e, m, validate)
  {
    hide Weight;
    FoldOfAppend(Adder(m, validate), 0.0, h, e);
  }

  /** What one more series changes on a side. */
  lemma {:induction false} NextSeries(h: seq<Exposed>, e: Exposed, isCount: bool, validate: Validator)
    ensures
      var ids, id := Ids(h, isCount, validate), multiset(e.sample.labels);
      && Ids(h + [e], isCount, validate) == (if Good(e, isCount, validate) then ids + {id} else ids)
      && (Repeats(h + [e], isCount, validate) <==>
            Repeats(h, isCount, validate) || (Good(e, isCount, validate) && id in ids))
      && (SawIncomplete(h + [e], isCount, validate) <==>
            SawIncomplete(h, isCount, validate) || Incomplete(e, isCount, validate))
  {
    hide Ids, Repeats, SawIncomplete, Good;
    IdsNext(h, e, isCount, validate);
    RepeatsNext(h, e, isCount, validate);
    SawIncompleteNext(h, e, isCount, validate);
  }

  /** What one more series adds to the sums. */
  lemma {:induction false} SumsNext(h: seq<Exposed>, e: Exposed, validate: Validator)
    ensures Sum(h + [e], Requests, validate) == Sum(h, Requests, validate) + Weight(e, Requests, validate)
    ensures Sum(h + [e], NotFound, validate) == Sum(h, NotFound, validate) + Weight(e, NotFound, validate)
    ensures Sum(h + [e], ClientErrors, validate) == Sum(h, ClientErrors, validate) + Weight(e, ClientErrors, validate)
    ensures Sum(h + [e], ServerErrors, validate) == Sum(h, ServerErrors, validate) + Weight(e, ServerErrors, validate)
    ensures Sum(h + [e], Seconds, validate) == Sum(h, Seconds, validate) + Weight(e, Seconds, validate)
  {
    hide Sum, Weight;
    SumNext(h, e, Requests, validate);
    SumNext(h, e, NotFound, validate);
    SumNext(h, e, ClientErrors, validate);
    SumNext(h, e, ServerErrors, validate);
    SumNext(h, e, Seconds, validate);
  }
}
