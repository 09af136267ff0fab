/** The stored history of one target: the `polls` rows joined with their `metric_samples`.
    Timestamps are nanoseconds since Go's zero time and sample values are reals. */
module Polls {
  import opened Common

  datatype Kind = Counter | Gauge

  /** The thirteen metric keys a series reads, and every other stored key. */
  datatype Key =
    | HttpRequestsTotal
    | Http404Total
    | Http4xxTotal
    | Http5xxTotal
    | HttpRequestTimeTotal
    | RuntimeHeapUsed
    | JvmHeapUsed
    | ProcessCpuUsage
    | HostCpuUsage
    | HostMemoryUsed
    | HostMemoryTotal
    | HostDiskUsed
    | HostDiskTotal
    | OtherKey(name: string)

  const COUNTER_KEYS: set<Key> :=
    {HttpRequestsTotal, Http404Total, Http4xxTotal, Http5xxTotal, HttpRequestTimeTotal}

  /** The series keys in the order `ORDER BY metric_key ASC` returns them. */
  const KEY_ORDER: seq<Key> :=
    [HostCpuUsage, HostDiskTotal, HostDiskUsed, HostMemoryTotal, HostMemoryUsed, Http404Total, Http4xxTotal,
     Http5xxTotal, HttpRequestTimeTotal, HttpRequestsTotal, JvmHeapUsed, ProcessCpuUsage, RuntimeHeapUsed]

  predicate IsSeriesKey(k: Key) {
    !k.OtherKey?
  }

  datatype Sample = Sample(kind: Kind, value: real, units: string)

  datatype Poll = Poll(id: int, ts: nat, run: Option<int>, samples: map<Key, Sample>)

  predicate Before(a: Poll, b: Poll) {
    a.ts < b.ts || (a.ts == b.ts && a.id < b.id)
  }

  /** The table as `ORDER BY started_at, id` lists it; ids are primary keys. */
  ghost predicate Ordered(db: seq<Poll>) {
    && (forall i, j :: 0 <= i < j < |db| ==> Before(db[i], db[j]))
    && (forall i, j :: 0 <= i < j < |db| ==> db[i].id != db[j].id)
  }

  /** Rows whose start time lies in [lo, hi). */
  function Between(db: seq<Poll>, lo: int, hi: int): seq<Poll> {
    if db == [] then []
    else if lo <= Last(db).ts < hi then Between(Init(db), lo, hi) + [Last(db)]
    else Between(Init(db), lo, hi)
  }

  lemma {:induction false} BetweenContents(db: seq<Poll>, lo: int, hi: int)
    ensures forall p :: p in Between(db, lo, hi) <==> p in db && lo <= p.ts < hi
  {
    if db != [] {
      BetweenContents(Init(db), lo, hi);
      assert db == Init(db) + [Last(db)];
    }
  }

  lemma {:induction false} BetweenOrdered(db: seq<Poll>, lo: int, hi: int)
    requires Ordered(db)
    ensures Ordered(Between(db, lo, hi))
  {
    if db != [] {
      var init, last := Init(db), Last(db);
      BetweenOrdered(init, lo, hi);
      BetweenContents(init, lo, hi);
      forall p | p in init ensures Before(p, last) && p.id != last.id {}
    }
  }

  lemma {:induction false} NothingBetween(db: seq<Poll>, lo: int, hi: int)
    requires forall p :: p in db ==> p.ts < lo || hi <= p.ts
    ensures Between(db, lo, hi) == []
  {
    if db != [] {
      assert Last(db) in db;
      forall p | p in Init(db) ensures p in db {}
      NothingBetween(Init(db), lo, hi);
    }
  }

  /** A window splits at any instant inside it. */
  lemma {:induction false} BetweenSplit(db: seq<Poll>, lo: int, mid: int, hi: int)
    requires Ordered(db) && lo <= mid <= hi
    ensures Between(db, lo, hi) == Between(db, lo, mid) + Between(db, mid, hi)
  {
    if db != [] {
      var init, last := Init(db), Last(db);
      BetweenSplit(init, lo, mid, hi);
      if lo <= last.ts < mid {
        forall p | p in db ensures p.ts < mid {
          var i :| 0 <= i < |db| && db[i] == p;
        }
        NothingBetween(init, mid, hi);
        NothingBetween(db, mid, hi);
      }
    }
  }

  /** A poll takes part in a series only through its samples under series keys. */
  function View(p: Poll): Poll {
    p.(samples := map k | k in p.samples && IsSeriesKey(k) :: p.samples[k])
  }

  predicate Relevant(p: Poll) {
    exists k :: k in p.samples && IsSeriesKey(k)
  }

  /** The polls that the inner join with the series samples keeps. */
  function Views(db: seq<Poll>): seq<Poll> {
    if db == [] then []
    else if Relevant(Last(db)) then Views(Init(db)) + [View(Last(db))]
    else Views(Init(db))
  }

  lemma {:induction false} ViewsConcat(a: seq<Poll>, b: seq<Poll>)
    ensures Views(a + b) == Views(a) + Views(b)
  {
    if b == [] {
      assert a + b == a;
    } else {
      ViewsConcat(a, Init(b));
      InitOfConcat(a, b);
    }
  }

  /** Whether p holds a counter sample under k, as `metric_kind = 'counter'` asks. */
  predicate Carries(p: Poll, k: Key) {
    k in p.samples && p.samples[k].kind == Counter
  }

  function ValueOf(p: Poll, k: Key): real
    requires Carries(p, k)
  {
    p.samples[k].value
  }

  /** The row `ORDER BY started_at DESC, id DESC LIMIT 1` picks among the polls that carry k. */
  function LastCarrier(db: seq<Poll>, k: Key): (r: Option<Poll>)
    ensures r.Some? ==> r.value in db && Carries(r.value, k)
    ensures r.None? ==> forall p :: p in db ==> !Carries(p, k)
  {
    if db == [] then None
    else if Carries(Last(db), k) then Some(Last(db))
    else LastCarrier(Init(db), k)
  }

  lemma {:induction false} LastCarrierConcat(a: seq<Poll>, b: seq<Poll>, k: Key)
    ensures LastCarrier(a + b, k) == if LastCarrier(b, k).Some? then LastCarrier(b, k) else LastCarrier(a, k)
  {
    if b == [] {
      assert a + b == a;
    } else {
      LastCarrierConcat(a, Init(b), k);
      InitOfConcat(a, b);
    }
  }
}
