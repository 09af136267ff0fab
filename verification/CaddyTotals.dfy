/** The five counters of a Caddy host as sums over its tuples. */
module CaddyTotals {
  import opened Common
  import opened Exposition
  import opened Identity
  import opened Polls
  import opened CaddyPopulation

  type Tuples = map<string, Tuple>

  /** What a tuple adds to a counter. */
  function Contribution(t: Tuple, k: Key): real {
    match k
    case HttpRequestsTotal => t.count
    case Http404Total => if t.code == 404 then t.count else 0.0
    case Http4xxTotal => if 400 <= t.code <= 499 then t.count else 0.0
    case Http5xxTotal => if t.code >= 500 then t.count else 0.0
    case HttpRequestTimeTotal => t.sum
    case _ => 0.0
  }

  ghost function Total(ts: Tuples, k: Key): real {
    if ts == map[] then 0.0
    else
      var key :| key in ts;
      Contribution(ts[key], k) + Total(ts - {key}, k)
  }

  /** The sum does not depend on which tuple is taken out first. */
  lemma {:induction false} TotalRemove(ts: Tuples, key: string, k: Key)
    requires key in ts
    ensures Total(ts, k) == Contribution(ts[key], k) + Total(ts - {key}, k)
    decreases ts
  {
    var first :| first in ts && Total(ts, k) == Contribution(ts[first], k) + Total(ts - {first}, k);
    if first != key {
      TotalRemove(ts - {first}, key, k);
      TotalRemove(ts - {key}, first, k);
      assert ts - {first} - {key} == ts - {key} - {first};
    }
  }

  // ---------- Well-formed populations ----------

  predicate Paired(ts: Tuples) {
    forall key :: key in ts ==> ts[key].hasCount && ts[key].hasSum
  }

  predicate ValidCount(x: real) {
    0.0 <= x <= MAX_COUNT as real && x == x.Floor as real
  }

  predicate WellFormed(ts: Tuples) {
    forall key :: key in ts ==>
      && (ts[key].hasCount ==> ValidCount(ts[key].count))
      && (ts[key].hasSum ==> 0.0 <= ts[key].sum)
  }

  /** Every key is the identity of some label set, and the code is the one that set names. */
  ghost predicate Genuine(ts: Tuples, printable: char -> bool) {
    forall key :: key in ts ==> Identifies(key, ts[key].code, printable)
  }

  ghost predicate Identifies(key: string, code: int, printable: char -> bool) {
    exists labels: seq<Label> ::
      DistinctNames(labels) && IdentityKey(labels, printable) == key && StatusCode(Lookup(labels, "code")) == Some(code)
  }

  lemma {:induction false} OneCodePerKey(key: string, code: int, code': int, printable: char -> bool)
    requires Identifies(key, code, printable) && Identifies(key, code', printable)
    ensures code == code'
  {
    var a: seq<Label> :| DistinctNames(a) && IdentityKey(a, printable) == key
                         && StatusCode(Lookup(a, "code")) == Some(code);
    var b: seq<Label> :| DistinctNames(b) && IdentityKey(b, printable) == key
                         && StatusCode(Lookup(b, "code")) == Some(code');
    SameKeySameCode(a, b, printable);
  }

  lemma {:induction false} KeysAreExposed(samples: seq<ScrapedSample>, c: Selector, key: string) returns (i: nat)
    requires key in Keys(samples, c)
    ensures i < |samples| && FactOf(samples[i], c).Some? && FactOf(samples[i], c).value.key == key
  {
    hide FactOf;
    var last := FactOf(Last(samples), c);
    if last.Some? && last.value.key == key {
      i := |samples| - 1;
    } else {
      i := KeysAreExposed(Init(samples), c, key);
    }
  }

  /** What a scrape observes is well formed and genuine. */
  lemma {:induction false} ObservedIsGenuine(samples: seq<ScrapedSample>, c: Selector)
    requires Parsed(samples) && Observed(samples, c).Some?
    ensures
      var ts := Observed(samples, c).value.tuples;
      WellFormed(ts) && Genuine(ts, c.printable) && |ts| <= MAX_TUPLES
  {
    hide Observed, FactOf;
    AcceptedExactly(samples, c);
    var p := Observed(samples, c).value;
    forall key | key in p.tuples ensures Identifies(key, p.tuples[key].code, c.printable) {
      var i := KeysAreExposed(samples, c, key);
      FactIsGenuine(samples[i], c);
      assert Keeps(p, FactOf(samples[i], c).value);
    }
    forall key | key in p.tuples
      ensures p.tuples[key].hasCount ==> ValidCount(p.tuples[key].count)
      ensures p.tuples[key].hasSum ==> 0.0 <= p.tuples[key].sum
    {
      if p.tuples[key].hasCount {
        PartIsValid(p, samples, c, key, true);
      }
      if p.tuples[key].hasSum {
        PartIsValid(p, samples, c, key, false);
      }
    }
    assert |p.tuples| == |p.tuples.Keys|;
  }

  lemma {:induction false} FactIsGenuine(s: ScrapedSample, c: Selector)
    requires DistinctNames(s.labels) && FactOf(s, c).Some?
    ensures
      var f := FactOf(s, c).value;
      && Identifies(f.key, f.code, c.printable)
      && f.value >= 0.0 && (f.isCount ==> ValidCount(f.value))
  {
    hide IdentityKey, Lookup, MissingSelector, StatusCode;
  }

  lemma {:induction false} PartIsValid(p: Population, samples: seq<ScrapedSample>, c: Selector, key: string,
                                       isCount: bool)
    requires Parsed(samples) && Records(p, samples, c) && key in p.tuples && HasPart(p.tuples[key], isCount)
    ensures PartOf(p.tuples[key], isCount) >= 0.0 && (isCount ==> ValidCount(p.tuples[key].count))
  {
    hide FactOf;
    assert Exposed(samples, c, key, isCount);
    var i :| 0 <= i < |samples| && FactOf(samples[i], c).Some?
             && FactOf(samples[i], c).value.key == key && FactOf(samples[i], c).value.isCount == isCount;
    FactIsGenuine(samples[i], c);
    assert Keeps(p, FactOf(samples[i], c).value);
  }

  // ---------- Computing the totals ----------

  datatype Counters = Counters(requests: real, http404: real, http4xx: real, http5xx: real, time: real)
  {
    function Value(k: Key): real {
      match k
      case HttpRequestsTotal => requests
      case Http404Total => http404
      case Http4xxTotal => http4xx
      case Http5xxTotal => http5xx
      case HttpRequestTimeTotal => time
      case _ => 0.0
    }
  }

  ghost predicate Sums(totals: Counters, ts: Tuples) {
    forall k :: k in COUNTER_KEYS ==> totals.Value(k) == Total(ts, k)
  }

  /** Whether the totals stay in range; `limit` is the greatest finite number. */
  ghost predicate InRange(ts: Tuples, limit: real) {
    Total(ts, HttpRequestsTotal) <= MAX_COUNT as real && Total(ts, HttpRequestTimeTotal) <= limit
  }

  // ---------- The order of addition ----------

  /** The keys in the order of `slices.Sort`. */
  ghost predicate KeyOrder(keys: seq<string>, ts: Tuples) {
    && (forall i, j :: 0 <= i < j < |keys| ==> Less(keys[i], keys[j]))
    && (forall key :: key in ts <==> key in keys)
  }

  function InsertKey(keys: seq<string>, key: string): seq<string> {
    if keys == [] || Less(Last(keys), key) then keys + [key] else InsertKey(Init(keys), key) + [Last(keys)]
  }

  lemma {:induction false} InsertKeyAscends(keys: seq<string>, key: string)
    requires key !in keys && forall i, j :: 0 <= i < j < |keys| ==> Less(keys[i], keys[j])
    ensures
      var r := InsertKey(keys, key);
      && (forall i, j :: 0 <= i < j < |r| ==> Less(r[i], r[j]))
      && (forall x :: x in r <==> x in keys || x == key)
  {
    hide Less;
    if keys != [] {
      var init, last := Init(keys), Last(keys);
      assert keys == init + [last];
      if Less(last, key) {
        forall i | 0 <= i < |keys| ensures Less(keys[i], key) {
          if i < |init| {
            LessIsTransitive(keys[i], last, key);
          }
        }
      } else {
        InsertKeyAscends(init, key);
        LessIsStrict(last, key);
        var r := InsertKey(init, key);
        forall i | 0 <= i < |r| ensures Less(r[i], last) {
          assert r[i] in r;
        }
      }
    }
  }

  method SortedKeys(ts: Tuples) returns (keys: seq<string>)
    ensures KeyOrder(keys, ts)
  {
    keys := [];
    var rest := ts.Keys;
    while rest != {}
      invariant rest <= ts.Keys
      invariant forall i, j :: 0 <= i < j < |keys| ==> Less(keys[i], keys[j])
      invariant forall key :: key in keys <==> key in ts && key !in rest
    {
      var key :| key in rest;
      InsertKeyAscends(keys, key);
      keys := InsertKey(keys, key);
      rest := rest - {key};
    }
  }

  /** There is only one such order. */
  lemma {:induction false} KeyOrderIsUnique(a: seq<string>, b: seq<string>, ts: Tuples)
    requires KeyOrder(a, ts) && KeyOrder(b, ts)
    ensures a == b
  {
    hide Less;
    if a != [] && b != [] {
      assert Last(a) in b && Last(b) in a;
      LessIsStrict(Last(a), Last(b));
      assert Last(a) == Last(b);
      assert a == Init(a) + [Last(a)] && b == Init(b) + [Last(b)];
      KeyOrderInit(a, ts);
      KeyOrderInit(b, ts);
      KeyOrderIsUnique(Init(a), Init(b), ts - {Last(a)});
    } else if a != [] {
      LastIsMember(a);
    } else if b != [] {
      LastIsMember(b);
    }
  }

  lemma {:induction false} KeyOrderInit(keys: seq<string>, ts: Tuples)
    requires KeyOrder(keys, ts) && keys != []
    ensures KeyOrder(Init(keys), ts - {Last(keys)})
  {
    hide Less;
    assert keys == Init(keys) + [Last(keys)];
    forall i | 0 <= i < |Init(keys)| ensures keys[i] != Last(keys) {
      LessIsStrict(keys[i], Last(keys));
    }
  }

  /** A counter added up over some keys. */
  function SumOver(ts: Tuples, keys: seq<string>, k: Key): real
    requires forall key :: key in keys ==> key in ts
  {
    if keys == [] then 0.0
    else
      assert forall key :: key in Init(keys) ==> key in keys;
      SumOver(ts, Init(keys), k) + Contribution(ts[Last(keys)], k)
  }

  /** What is wrong with the next tuple, after these sums. */
  function FaultAt(tuple: Tuple, requests: real, time: real, limit: real): Option<PopulationError> {
    if !tuple.hasCount || !tuple.hasSum then Some(Unpaired)
    else if requests + tuple.count > MAX_COUNT as real then Some(CountOutOfRange)
    else if time + tuple.sum > limit then Some(DurationOverflow)
    else None
  }

  /** The first fault in this order of keys. */
  function FaultOf(ts: Tuples, keys: seq<string>, limit: real): Option<PopulationError>
    requires forall key :: key in keys ==> key in ts
  {
    if keys == [] then None
    else
      assert forall key :: key in Init(keys) ==> key in keys;
      var before := FaultOf(ts, Init(keys), limit);
      if before.Some? then before
      else
        FaultAt(ts[Last(keys)], SumOver(ts, Init(keys), HttpRequestsTotal),
                SumOver(ts, Init(keys), HttpRequestTimeTotal), limit)
  }

  /** A population without totals reports its first fault in key order. */
  ghost predicate Unfit(ts: Tuples, limit: real, e: PopulationError) {
    exists keys :: KeyOrder(keys, ts) && FaultOf(ts, keys, limit) == Some(e)
  }

  lemma {:induction false} FaultStays(ts: Tuples, keys: seq<string>, n: nat, limit: real)
    requires n <= |keys| && forall key :: key in keys ==> key in ts
    requires FaultOf(ts, keys[..n], limit).Some?
    ensures FaultOf(ts, keys, limit) == FaultOf(ts, keys[..n], limit)
  {
    hide FaultAt, SumOver;
    if n == |keys| {
      WholePrefix(keys);
    } else {
      assert Init(keys)[..n] == keys[..n];
      FaultStays(ts, Init(keys), n, limit);
    }
  }

  lemma {:induction false} FaultNext(ts: Tuples, keys: seq<string>, i: nat, limit: real)
    requires i < |keys| && forall key :: key in keys ==> key in ts
    ensures forall k :: SumOver(ts, keys[..i + 1], k) == SumOver(ts, keys[..i], k) + Contribution(ts[keys[i]], k)
    ensures FaultOf(ts, keys[..i], limit).None? ==>
              FaultOf(ts, keys[..i + 1], limit) ==
              FaultAt(ts[keys[i]], SumOver(ts, keys[..i], HttpRequestsTotal),
                      SumOver(ts, keys[..i], HttpRequestTimeTotal), limit)
  {
    hide FaultAt, Contribution;
    InitOfPrefix(keys, i);
  }

  /** The totals with one more tuple. */
  function Plus(totals: Counters, tuple: Tuple): Counters {
    Counters(
      totals.requests + tuple.count,
      if tuple.code == 404 then totals.http404 + tuple.count else totals.http404,
      if 400 <= tuple.code <= 499 then totals.http4xx + tuple.count else totals.http4xx,
      if tuple.code >= 500 then totals.http5xx + tuple.count else totals.http5xx,
      totals.time + tuple.sum)
  }

  /** After the first i keys: no fault so far, and the totals are what they and the rest make up. */
  ghost predicate Added(ts: Tuples, keys: seq<string>, i: nat, rest: Tuples, totals: Counters, limit: real) {
    && KeyOrder(keys, ts) && i <= |keys|
    && (forall key :: key in rest <==> key in keys[i..])
    && (forall key :: key in rest ==> key in ts && rest[key] == ts[key])
    && WellFormed(rest) && (Paired(ts) <==> Paired(rest))
    && Left(totals, rest, ts) && FaultOf(ts, keys[..i], limit).None?
    && totals.requests == SumOver(ts, keys[..i], HttpRequestsTotal)
    && totals.time == SumOver(ts, keys[..i], HttpRequestTimeTotal)
    && totals.requests <= MAX_COUNT as real && totals.time <= limit
  }

  method Totals(ts: Tuples, limit: real) returns (r: Result<Counters, PopulationError>)
    requires WellFormed(ts) && limit >= 0.0
    ensures r.Success? <==> Paired(ts) && InRange(ts, limit)
    ensures r.Success? ==> Sums(r.value, ts)
    ensures r.Failure? ==> Unfit(ts, limit, r.error)
  {
    hide Total, Added, Paired, WellFormed, InRange, Unfit, Sums, KeyOrder;
    var totals := Counters(0.0, 0.0, 0.0, 0.0, 0.0);
    var keys := SortedKeys(ts);
    ghost var rest := ts;
    NothingAdded(ts, keys, limit);
    var i := 0;
    while i < |keys|
      invariant 0 <= i <= |keys| && Added(ts, keys, i, rest, totals, limit)
    {
      NextAdded(ts, keys, i, rest, totals, limit);
      var tuple := ts[keys[i]];
      ghost var before := totals;
      if !tuple.hasCount || !tuple.hasSum {
        return Failure(Unpaired);
      }
      if tuple.count > MAX_COUNT as real - totals.requests {
        return Failure(CountOutOfRange);
      }
      totals := totals.(requests := totals.requests + tuple.count);
      if tuple.code == 404 {
        totals := totals.(http404 := totals.http404 + tuple.count);
      }
      if 400 <= tuple.code <= 499 {
        totals := totals.(http4xx := totals.http4xx + tuple.count);
      }
      if tuple.code >= 500 {
        totals := totals.(http5xx := totals.http5xx + tuple.count);
      }
      totals := totals.(time := totals.time + tuple.sum);
      if totals.time > limit {
        return Failure(DurationOverflow);
      }
      assert totals == Plus(before, tuple);
      rest := rest - {keys[i]};
      i := i + 1;
    }
    EveryKeyAdded(ts, keys, rest, totals, limit);
    r := Success(totals);
  }

  lemma {:induction false} NothingAdded(ts: Tuples, keys: seq<string>, limit: real)
    requires WellFormed(ts) && KeyOrder(keys, ts) && limit >= 0.0
    ensures Added(ts, keys, 0, ts, Counters(0.0, 0.0, 0.0, 0.0, 0.0), limit)
  {
    hide Less, Total;
    NothingTaken(ts);
    assert keys[..0] == [] && keys[0..] == keys;
  }

  /** The next tuple either has a fault, which then is the first, or is added. */
  lemma {:induction false} NextAdded(ts: Tuples, keys: seq<string>, i: nat, rest: Tuples, totals: Counters, limit: real)
    requires i < |keys| && Added(ts, keys, i, rest, totals, limit)
    ensures keys[i] in ts
    ensures
      var fault := FaultAt(ts[keys[i]], totals.requests, totals.time, limit);
      if fault.Some? then Unfit(ts, limit, fault.value) && !(Paired(ts) && InRange(ts, limit))
      else Added(ts, keys, i + 1, rest - {keys[i]}, Plus(totals, ts[keys[i]]), limit)
  {
    hide Less, Total, Left, Paired, WellFormed, SumOver, FaultOf, InRange;
    var key := keys[i];
    assert key in keys[i..];
    FaultNext(ts, keys, i, limit);
    TakeOut(rest, key);
    if FaultAt(ts[key], totals.requests, totals.time, limit).Some? {
      FaultStays(ts, keys, i + 1, limit);
      FaultIsReal(totals, rest, ts, key, limit);
    } else {
      PlusCounts(totals, ts[key]);
      Taken(totals, Plus(totals, ts[key]), rest, ts, key);
      KeyTaken(keys, i);
    }
  }

  lemma {:induction false} PlusCounts(totals: Counters, tuple: Tuple)
    requires tuple.hasCount && tuple.hasSum
    ensures forall k :: k in COUNTER_KEYS ==> Plus(totals, tuple).Value(k) == totals.Value(k) + Contribution(tuple, k)
  {
  }

  lemma {:induction false} FaultIsReal(totals: Counters, rest: Tuples, ts: Tuples, key: string, limit: real)
    requires key in rest && key in ts && rest[key] == ts[key] && WellFormed(rest) && Left(totals, rest, ts)
    requires Paired(ts) <==> Paired(rest)
    requires FaultAt(ts[key], totals.requests, totals.time, limit).Some?
    ensures !(Paired(ts) && InRange(ts, limit))
  {
    hide Total, Left, WellFormed;
    TooMuch(totals, rest, ts, key, limit);
  }

  lemma {:induction false} EveryKeyAdded(ts: Tuples, keys: seq<string>, rest: Tuples, totals: Counters, limit: real)
    requires Added(ts, keys, |keys|, rest, totals, limit)
    ensures Paired(ts) && InRange(ts, limit) && Sums(totals, ts)
  {
    hide Total, Left, Less, SumOver, FaultOf;
    assert rest == map[];
    AllTaken(totals, ts, limit);
  }

  lemma {:induction false} KeyTaken(keys: seq<string>, i: nat)
    requires i < |keys| && forall i, j :: 0 <= i < j < |keys| ==> Less(keys[i], keys[j])
    ensures forall key :: key in keys[i + 1..] <==> key in keys[i..] && key != keys[i]
  {
    hide Less;
    assert keys[i..] == [keys[i]] + keys[i + 1..];
    forall j | i < j < |keys| ensures keys[j] != keys[i] {
      LessIsStrict(keys[i], keys[j]);
    }
  }

  /** The totals so far and the tuples still to come make up the whole. */
  ghost predicate Left(totals: Counters, rest: Tuples, ts: Tuples) {
    forall k :: k in COUNTER_KEYS ==> totals.Value(k) + Total(rest, k) == Total(ts, k)
  }

  lemma {:induction false} NothingTaken(ts: Tuples)
    ensures Left(Counters(0.0, 0.0, 0.0, 0.0, 0.0), ts, ts)
  {
  }

  lemma {:induction false} Taken(before: Counters, after: Counters, rest: Tuples, ts: Tuples, key: string)
    requires key in rest && WellFormed(rest) && Left(before, rest, ts)
    requires forall k :: k in COUNTER_KEYS ==> after.Value(k) == before.Value(k) + Contribution(rest[key], k)
    ensures Left(after, rest - {key}, ts)
  {
    hide Contribution;
    TakeOut(rest, key);
  }

  /** A tuple that does not fit now cannot fit later. */
  lemma {:induction false} TooMuch(totals: Counters, rest: Tuples, ts: Tuples, key: string, limit: real)
    requires key in rest && WellFormed(rest) && Left(totals, rest, ts)
    ensures Paired(rest) && Total(ts, HttpRequestsTotal) <= MAX_COUNT as real ==>
              totals.requests + rest[key].count <= MAX_COUNT as real
    ensures Paired(rest) && Total(ts, HttpRequestTimeTotal) <= limit ==> totals.time + rest[key].sum <= limit
  {
    hide Total;
    TakeOut(rest, key);
    assert totals.Value(HttpRequestsTotal) + Total(rest, HttpRequestsTotal) == Total(ts, HttpRequestsTotal);
    assert totals.Value(HttpRequestTimeTotal) + Total(rest, HttpRequestTimeTotal) == Total(ts, HttpRequestTimeTotal);
  }

  lemma {:induction false} AllTaken(totals: Counters, ts: Tuples, limit: real)
    requires Left(totals, map[], ts) && totals.requests <= MAX_COUNT as real && totals.time <= limit
    ensures Sums(totals, ts) && InRange(ts, limit) && Paired(map[])
  {
    assert totals.Value(HttpRequestsTotal) == Total(ts, HttpRequestsTotal);
    assert totals.Value(HttpRequestTimeTotal) == Total(ts, HttpRequestTimeTotal);
  }

  lemma {:induction false} TakeOut(rest: Tuples, key: string)
    requires key in rest && WellFormed(rest)
    ensures forall k :: k in COUNTER_KEYS ==> Total(rest, k) == Contribution(rest[key], k) + Total(rest - {key}, k)
    ensures Paired(rest) <==> rest[key].hasCount && rest[key].hasSum && Paired(rest - {key})
    ensures Paired(rest) ==> forall k :: k in COUNTER_KEYS ==> Total(rest - {key}, k) >= 0.0
    ensures WellFormed(rest - {key})
  {
    forall other | other in rest && other != key ensures other in rest - {key} {}
    forall k | k in COUNTER_KEYS
      ensures Total(rest, k) == Contribution(rest[key], k) + Total(rest - {key}, k)
      ensures Paired(rest) ==> Total(rest - {key}, k) >= 0.0
    {
      TotalRemove(rest, key, k);
      if Paired(rest) {
        TotalIsNonnegative(rest - {key}, k);
      }
    }
  }

  lemma {:induction false} TotalIsNonnegative(ts: Tuples, k: Key)
    requires Paired(ts) && WellFormed(ts)
    ensures Total(ts, k) >= 0.0
    decreases ts
  {
    if ts != map[] {
      var key :| key in ts;
      TotalRemove(ts, key, k);
      TotalIsNonnegative(ts - {key}, k);
      assert ValidCount(ts[key].count) && ts[key].sum >= 0.0;
    }
  }

  /** 404s are among the 4xx, and 4xx and 5xx are disjoint shares of all requests. */
  lemma {:induction false} TotalsAreShares(ts: Tuples)
    requires Paired(ts) && WellFormed(ts)
    ensures 0.0 <= Total(ts, Http404Total) <= Total(ts, Http4xxTotal)
    ensures 0.0 <= Total(ts, Http5xxTotal)
    ensures Total(ts, Http4xxTotal) + Total(ts, Http5xxTotal) <= Total(ts, HttpRequestsTotal)
    decreases ts
  {
    if ts != map[] {
      var key :| key in ts;
      TakeOut(ts, key);
      TotalsAreShares(ts - {key});
      assert ValidCount(ts[key].count);
    }
  }

  // ---------- Growth ----------

  /** Every old tuple is still there with a count and a duration that did not drop. */
  predicate GrowsTo(old': Tuples, new': Tuples) {
    forall key :: key in old' ==>
      key in new' && old'[key].count <= new'[key].count && old'[key].sum <= new'[key].sum
  }

  /** The sum of what each tuple gained; a tuple that just appeared gained all it holds. */
  ghost function Increase(old': Tuples, new': Tuples, k: Key): real {
    if new' == map[] then 0.0
    else
      var key :| key in new';
      Contribution(new'[key], k) - Contribution(TupleAt(old', key), k) + Increase(old', new' - {key}, k)
  }

  lemma {:induction false} IncreaseRemove(old': Tuples, new': Tuples, key: string, k: Key)
    requires key in new'
    ensures Increase(old', new', k) ==
            Contribution(new'[key], k) - Contribution(TupleAt(old', key), k) + Increase(old', new' - {key}, k)
    decreases new'
  {
    var first :| first in new'
                 && Increase(old', new', k) ==
                    Contribution(new'[first], k) - Contribution(TupleAt(old', first), k) + Increase(old',
                                                                                                    new' - {first}, k);
    if first != key {
      IncreaseRemove(old', new' - {first}, key, k);
      IncreaseRemove(old', new' - {key}, first, k);
      assert new' - {first} - {key} == new' - {key} - {first};
    }
  }

  lemma {:induction false} IncreaseIgnoresOthers(a: Tuples, b: Tuples, new': Tuples, k: Key)
    requires forall key :: key in new' ==> TupleAt(a, key) == TupleAt(b, key)
    ensures Increase(a, new', k) == Increase(b, new', k)
    decreases new'
  {
    if new' != map[] {
      var key :| key in new';
      IncreaseRemove(a, new', key, k);
      IncreaseRemove(b, new', key, k);
      IncreaseIgnoresOthers(a, b, new' - {key}, k);
    }
  }

  /** A counter moves by exactly what its tuples gained. */
  lemma {:induction false} CountersMoveByTuples(old': Tuples, new': Tuples, k: Key)
    requires old'.Keys <= new'.Keys
    ensures Total(new', k) == Total(old', k) + Increase(old', new', k)
    decreases new'
  {
    if new' != map[] {
      var key :| key in new';
      var rest := old' - {key};
      TotalRemove(new', key, k);
      IncreaseRemove(old', new', key, k);
      CountersMoveByTuples(rest, new' - {key}, k);
      IncreaseIgnoresOthers(old', rest, new' - {key}, k);
      if key in old' {
        TotalRemove(old', key, k);
      } else {
        assert rest == old';
      }
    }
  }

  lemma {:induction false} TupleOnlyGains(old': Tuples, new': Tuples, key: string, k: Key, printable: char -> bool)
    requires key in new' && Paired(new') && WellFormed(new') && Genuine(old', printable) && Genuine(new', printable)
    requires GrowsTo(old', new')
    ensures Contribution(new'[key], k) >= Contribution(TupleAt(old', key), k)
  {
    hide Identifies;
    assert ValidCount(new'[key].count);
    if key in old' {
      OneCodePerKey(key, old'[key].code, new'[key].code, printable);
    }
  }

  lemma {:induction false} GrowthOnlyGains(old': Tuples, new': Tuples, k: Key, printable: char -> bool)
    requires Paired(new') && WellFormed(new') && Genuine(old', printable) && Genuine(new', printable)
    requires GrowsTo(old', new')
    ensures Increase(old', new', k) >= 0.0
    decreases new'
  {
    hide Identifies, Contribution;
    if new' != map[] {
      var key :| key in new';
      var rest := old' - {key};
      IncreaseRemove(old', new', key, k);
      GrowthOnlyGains(rest, new' - {key}, k, printable);
      IncreaseIgnoresOthers(old', rest, new' - {key}, k);
      TupleOnlyGains(old', new', key, k, printable);
    }
  }
}
