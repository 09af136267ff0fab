/** Retention: deleting expired polls, the tracked cutoff, and the bounded public read that respects it. */
module Retention {
  import opened Common
  import opened Polls
  import opened Series
  import opened SeriesReads
  import opened Dashboard
  import opened PublicMetrics
  import Database

  const HOUR := 60 * MINUTE

  /** The polls at or after an instant. */
  function From(db: seq<Poll>, cutoff: int): seq<Poll> {
    if db == [] then []
    else if cutoff <= Last(db).ts then From(Init(db), cutoff) + [Last(db)]
    else From(Init(db), cutoff)
  }

  // ---------- Deleting ----------

  class Store {
    var polls: seq<Poll>

    /** `DELETE FROM polls WHERE started_at < ?` in a transaction; a call that reports an error may have committed. */
    method DeletePollsBefore(cutoff: int, call: Database.Call) returns (r: Result<nat, string>)
      requires Ordered(polls)
      modifies this
      ensures polls == if call.Works? || call.committed then From(old(polls), cutoff) else old(polls)
      ensures r == if call.Works? then Success(|old(polls)| - |polls|) else Failure(call.cause)
      ensures Ordered(polls)
    {
      if call.Fails? && !call.committed {
        return Failure(call.cause);
      }
      var before := |polls|;
      FromOrdered(polls, cutoff);
      polls := From(polls, cutoff);
      r := if call.Works? then Success(before - |polls|) else Failure(call.cause);
    }
  }

  class CutoffTracker {
    var cutoff: int
  }

  /** One cleanup: the tracked cutoff moves only after the deletion is known to have committed. */
  method CleanupRetention(store: Store, tracker: CutoffTracker, cutoff: int, call: Database.Call)
    requires Ordered(store.polls)
    modifies store, tracker
    ensures Ordered(store.polls)
    ensures store.polls == if call.Works? || call.committed then From(old(store.polls), cutoff) else old(store.polls)
    ensures tracker.cutoff == if call.Works? then cutoff else old(tracker.cutoff)
  {
    var r := store.DeletePollsBefore(cutoff, call);
    if r.Success? {
      tracker.cutoff := cutoff;
    }
  }

  lemma {:induction false} FromContents(db: seq<Poll>, cutoff: int)
    ensures |From(db, cutoff)| <= |db|
    ensures forall p :: p in From(db, cutoff) <==> p in db && cutoff <= p.ts
  {
    if db != [] {
      FromContents(Init(db), cutoff);
      assert db == Init(db) + [Last(db)];
    }
  }

  lemma {:induction false} FromOrdered(db: seq<Poll>, cutoff: int)
    requires Ordered(db)
    ensures Ordered(From(db, cutoff)) && |From(db, cutoff)| <= |db|
  {
    if db != [] {
      FromOrdered(Init(db), cutoff);
      FromContents(Init(db), cutoff);
      forall p | p in Init(db) ensures Before(p, Last(db)) && p.id != Last(db).id {}
    }
  }

  /** Deleting older polls twice keeps what the later cutoff keeps. */
  lemma {:induction false} FromFrom(db: seq<Poll>, earlier: int, cutoff: int)
    requires earlier <= cutoff
    ensures From(From(db, earlier), cutoff) == From(db, cutoff)
  {
    if db != [] {
      FromFrom(Init(db), earlier, cutoff);
      InitOfAppend(From(Init(db), earlier), Last(db));
    }
  }

  /** A window at or after the cutoff sees only the polls from the cutoff on. */
  lemma {:induction false} BetweenFrom(db: seq<Poll>, cutoff: int, lo: int, hi: int)
    requires cutoff <= lo
    ensures Between(db, lo, hi) == Between(From(db, cutoff), lo, hi)
  {
    if db != [] {
      BetweenFrom(Init(db), cutoff, lo, hi);
      InitOfAppend(From(Init(db), cutoff), Last(db));
    }
  }

  // ---------- The public read ----------

  datatype Clamp = Clamp(start: int, cutoff: int, clamped: bool)

  /** No cutoff means that retention is off; the zero time then lifts the baseline bound. */
  function ClampToRetention(start: int, retention: Option<int>): Clamp {
    if retention.None? then Clamp(start, ZERO_TIME, false)
    else if start < retention.value then Clamp(retention.value, retention.value, true)
    else Clamp(start, retention.value, false)
  }

  function ClearCounters(point: SeriesPoint): SeriesPoint {
    point.(requests := None, http404 := None, http4xx := None, http5xx := None, latency := None)
  }

  /** The earliest point at or after the cutoff, the first of them on ties; |points| if there is none. */
  function CutoffIndex(points: seq<SeriesPoint>, cutoff: int): (i: nat)
    ensures i <= |points|
  {
    if points == [] then 0
    else
      var n := |points| - 1;
      var i := CutoffIndex(points[..n], cutoff);
      if points[n].ts < cutoff then (if i == n then n + 1 else i)
      else if i == n || points[n].ts < points[i].ts then n
      else i
  }

  lemma {:induction false} CutoffIndexIsEarliest(points: seq<SeriesPoint>, cutoff: int)
    ensures
      var i := CutoffIndex(points, cutoff);
      && (i == |points| <==> forall j :: 0 <= j < |points| ==> points[j].ts < cutoff)
      && (i < |points| ==>
            && cutoff <= points[i].ts
            && (forall j :: 0 <= j < |points| && cutoff <= points[j].ts ==> points[i].ts <= points[j].ts)
            && (forall j :: 0 <= j < i && cutoff <= points[j].ts ==> points[i].ts < points[j].ts))
  {
    if points != [] {
      var n := |points| - 1;
      var init, i := points[..n], CutoffIndex(points[..n], cutoff);
      CutoffIndexIsEarliest(init, cutoff);
      assert forall j :: 0 <= j < n ==> init[j] == points[j];
      if points[n].ts < cutoff {
        assert CutoffIndex(points, cutoff) == if i == n then n + 1 else i;
      } else if i == n || points[n].ts < points[i].ts {
        assert CutoffIndex(points, cutoff) == n;
        assert forall j :: 0 <= j < n && cutoff <= points[j].ts ==> points[n].ts < points[j].ts;
      } else {
        assert CutoffIndex(points, cutoff) == i;
      }
    }
  }

  function Cleared(series: SeriesData, cutoff: int): SeriesData {
    var latest :=
      if series.firstPollId != 0 && series.latestPoint.Some? && series.latestPoint.value.pollId == series.firstPollId
         && cutoff <= series.latestPoint.value.ts
      then Some(ClearCounters(series.latestPoint.value)) else series.latestPoint;
    var i := CutoffIndex(series.points, cutoff);
    series.(latestPoint := latest,
            points := if i == |series.points| then series.points
                      else series.points[i := ClearCounters(series.points[i])])
  }

  method ClearCutoffCounterBaseline(series: SeriesData, cutoff: int) returns (r: SeriesData)
    ensures r == Cleared(series, cutoff)
  {
    r := series;
    if r.firstPollId != 0 && r.latestPoint.Some? && r.latestPoint.value.pollId == r.firstPollId
       && !(r.latestPoint.value.ts < cutoff) {
      r := r.(latestPoint := Some(ClearCounters(r.latestPoint.value)));
    }
    var points := r.points;
    var cutoffIndex: int := -1;
    var i := 0;
    while i < |points|
      invariant 0 <= i <= |points|
      invariant cutoffIndex == if CutoffIndex(points[..i], cutoff) == i then -1 else CutoffIndex(points[..i], cutoff)
    {
      assert points[..i + 1][..i] == points[..i];
      if !(points[i].ts < cutoff) {
        if cutoffIndex == -1 || points[i].ts < points[cutoffIndex].ts {
          cutoffIndex := i;
        }
      }
      i := i + 1;
    }
    assert points[..i] == points;
    if cutoffIndex == -1 {
      return;
    }
    r := r.(points := points[cutoffIndex := ClearCounters(points[cutoffIndex])]);
  }

  /** The public answer at an instant: the last hour, clamped to retention, first retained point as new baseline. */
  function PublicAnswer(db: seq<Poll>, retention: Option<int>, now: int): Result<PublicSeries, ReadError> {
    var c := ClampToRetention(now - HOUR, retention);
    if !(c.start < now) then Success(PublicSeries([], None))
    else
      match BoundedResult(db, c.start, now, c.cutoff)
      case Failure(e) => Failure(e)
      case Success(series) => Success(Grouped((if c.clamped then Cleared(series, c.cutoff) else series).points))
  }

  method ReadPublicMetrics(db: seq<Poll>, retention: Option<int>, now: int) returns (r: Result<PublicSeries, ReadError>)
    requires Ordered(db)
    ensures r == PublicAnswer(db, retention, now)
  {
    var c := ClampToRetention(now - HOUR, retention);
    if !(c.start < now) {
      return Success(PublicSeries([], None));
    }
    var bounded := BoundedSeries(db, c.start, now, c.cutoff);
    if bounded.Failure? {
      return Failure(bounded.error);
    }
    var series := bounded.value;
    if c.clamped {
      series := ClearCutoffCounterBaseline(series, c.cutoff);
    }
    var grouped := GroupPublicMetrics(series);
    r := Success(grouped);
  }

  // ---------- Retention is invisible ----------

  lemma {:induction false} BoundedIgnoresExpired(db: seq<Poll>, start: int, end: int, cutoff: int)
    requires cutoff <= start
    ensures BoundedResult(db, start, end, cutoff) == BoundedResult(From(db, cutoff), start, end, cutoff)
  {
    BetweenFrom(db, cutoff, start, end + 1);
    BetweenFrom(db, cutoff, cutoff, start);
  }

  /** With retention on, the public answer depends only on the polls at or after the cutoff. */
  lemma {:induction false} PublicAnswerIgnoresExpired(db: seq<Poll>, db': seq<Poll>, cutoff: int, now: int)
    requires From(db, cutoff) == From(db', cutoff)
    ensures PublicAnswer(db, Some(cutoff), now) == PublicAnswer(db', Some(cutoff), now)
  {
    hide BoundedResult, Grouped, Cleared;
    var c := ClampToRetention(now - HOUR, Some(cutoff));
    BoundedIgnoresExpired(db, c.start, now, cutoff);
    BoundedIgnoresExpired(db', c.start, now, cutoff);
  }

  /** Deleting polls before any instant up to the cutoff never changes the public answer. */
  lemma {:induction false} DeletionIsInvisible(db: seq<Poll>, deleted: int, cutoff: int, now: int)
    requires deleted <= cutoff
    ensures PublicAnswer(From(db, deleted), Some(cutoff), now) == PublicAnswer(db, Some(cutoff), now)
  {
    FromFrom(db, deleted, cutoff);
    PublicAnswerIgnoresExpired(From(db, deleted), db, cutoff, now);
  }

  /** Reading with a cutoff is reading the retained polls without one. */
  lemma {:induction false} CutoffReadsRetained(db: seq<Poll>, start: int, end: int, cutoff: int)
    requires cutoff <= start
    ensures NativePoints(db, start, end, cutoff) == NativePoints(From(db, cutoff), start, end, ZERO_TIME)
  {
    BetweenFrom(db, cutoff, start, end + 1);
    BetweenFrom(db, cutoff, cutoff, start);
    FromContents(db, cutoff);
    FromWhole(From(db, cutoff), cutoff, start);
  }

  lemma {:induction false} FromWhole(db: seq<Poll>, cutoff: int, hi: int)
    requires forall p :: p in db ==> cutoff <= p.ts
    ensures Between(db, cutoff, hi) == Between(db, ZERO_TIME, hi)
  {
    if db != [] {
      assert db == Init(db) + [Last(db)];
      FromWhole(Init(db), cutoff, hi);
    }
  }
}
