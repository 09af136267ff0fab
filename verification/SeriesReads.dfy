/** The series queries: sample rows grouped back into polls, baselines read per counter, and the
    plain and bounded reads built on them. */
module SeriesReads {
  import opened Common
  import opened Polls
  import opened Series

  // ---------- The joined rows of a window ----------

  datatype Row = Row(pollId: int, ts: nat, run: Option<int>, key: Key, sample: Sample)

  /** The rows of one poll under the given keys, in their order. */
  function RowsOf(p: Poll, keys: seq<Key>): seq<Row> {
    if keys == [] then []
    else
      var k := Last(keys);
      RowsOf(p, Init(keys)) + if k in p.samples then [Row(p.id, p.ts, p.run, k, p.samples[k])] else []
  }

  function Rows(ps: seq<Poll>): seq<Row> {
    if ps == [] then [] else Rows(Init(ps)) + RowsOf(Last(ps), KEY_ORDER)
  }

  /** Consecutive rows of one poll id, gathered into that poll's samples. */
  function Gathered(rows: seq<Row>): (r: seq<Poll>)
    ensures rows == [] <==> r == []
    ensures rows != [] ==> Last(r).id == Last(rows).pollId
  {
    if rows == [] then []
    else
      var before, row := Gathered(Init(rows)), Last(rows);
      if before == [] || Last(before).id != row.pollId
      then before + [FirstRow(row)]
      else Init(before) + [NextRow(Last(before), row)]
  }

  function FirstRow(row: Row): Poll {
    Poll(row.pollId, row.ts, row.run, map[row.key := row.sample])
  }

  function NextRow(p: Poll, row: Row): Poll {
    p.(samples := p.samples[row.key := row.sample])
  }

  function PartialView(p: Poll, keys: seq<Key>): Poll {
    p.(samples := map k | k in p.samples && k in keys :: p.samples[k])
  }

  lemma {:induction false} PartialViewStep(p: Poll, keys: seq<Key>, k: Key)
    ensures PartialView(p, keys + [k]) ==
            if k in p.samples then p.(samples := PartialView(p, keys).samples[k := p.samples[k]])
            else PartialView(p, keys)
  {
    assert PartialView(p, keys + [k]).samples ==
           if k in p.samples then PartialView(p, keys).samples[k := p.samples[k]] else PartialView(p, keys).samples;
  }

  lemma {:induction false} NoRows(p: Poll, keys: seq<Key>)
    ensures RowsOf(p, keys) == [] <==> forall k :: k in keys ==> k !in p.samples
    ensures RowsOf(p, keys) != [] ==> Last(RowsOf(p, keys)).pollId == p.id
  {
    if keys != [] {
      NoRows(p, Init(keys));
      assert keys == Init(keys) + [Last(keys)];
    }
  }

  lemma {:induction false} GatherPoll(rows: seq<Row>, p: Poll, keys: seq<Key>)
    requires rows != [] ==> Last(rows).pollId != p.id
    ensures Gathered(rows + RowsOf(p, keys)) ==
            Gathered(rows) + if RowsOf(p, keys) == [] then [] else [PartialView(p, keys)]
  {
    if keys == [] {
      assert rows + RowsOf(p, keys) == rows;
    } else {
      var init, k := Init(keys), Last(keys);
      assert keys == init + [k];
      GatherPoll(rows, p, init);
      PartialViewStep(p, init, k);
      NoRows(p, init);
      if k in p.samples {
        GatherOneMore(rows, p, init, Row(p.id, p.ts, p.run, k, p.samples[k]));
      } else {
        assert RowsOf(p, keys) == RowsOf(p, init);
      }
    }
  }

  lemma {:induction false} GatherOneMore(rows: seq<Row>, p: Poll, init: seq<Key>, row: Row)
    requires rows != [] ==> Last(rows).pollId != p.id
    requires row.key in p.samples && row == Row(p.id, p.ts, p.run, row.key, p.samples[row.key])
    requires Gathered(rows + RowsOf(p, init)) ==
             Gathered(rows) + if RowsOf(p, init) == [] then [] else [PartialView(p, init)]
    ensures Gathered(rows + (RowsOf(p, init) + [row])) == Gathered(rows) + [PartialView(p, init + [row.key])]
  {
    hide RowsOf, Gathered;
    var listed, view := RowsOf(p, init), PartialView(p, init);
    NoRows(p, init);
    PartialViewStep(p, init, row.key);
    GatherStep(rows + listed, row);
    assert rows + (listed + [row]) == rows + listed + [row];
    if listed == [] {
      assert rows + listed == rows;
      assert view.samples == map[];
    } else {
      InitOfConcat(rows, listed);
      InitOfAppend(Gathered(rows), view);
    }
  }

  lemma {:induction false} GatherStep(rows: seq<Row>, row: Row)
    ensures Gathered(rows + [row]) ==
            if rows == [] || Last(rows).pollId != row.pollId
            then Gathered(rows) + [FirstRow(row)]
            else Init(Gathered(rows)) + [NextRow(Last(Gathered(rows)), row)]
  {
    InitOfAppend(rows, row);
  }

  lemma {:induction false} SeriesKeysAreListed(k: Key)
    ensures IsSeriesKey(k) <==> k in KEY_ORDER
  {
  }

  lemma {:induction false} ListedView(p: Poll)
    ensures PartialView(p, KEY_ORDER) == View(p)
    ensures Relevant(p) <==> exists k :: k in KEY_ORDER && k in p.samples
  {
    forall k ensures IsSeriesKey(k) <==> k in KEY_ORDER { SeriesKeysAreListed(k); }
  }

  /** Gathering the joined rows gives back exactly the polls that have a series sample. */
  lemma {:induction false} GatherRows(ps: seq<Poll>)
    requires Ordered(ps)
    ensures Gathered(Rows(ps)) == Views(ps)
    ensures Rows(ps) != [] ==> exists p :: p in ps && p.id == Last(Rows(ps)).pollId
  {
    hide View, Relevant, PartialView, RowsOf;
    if ps != [] {
      var init, p := Init(ps), Last(ps);
      GatherRows(init);
      GatherPoll(Rows(init), p, KEY_ORDER);
      NoRows(p, KEY_ORDER);
      ListedView(p);
    }
  }

  // ---------- The fold over rows ----------

  /** The Go map that a read consumes and updates while it derives points. */
  class BaselineTable {
    var values: Baseline

    constructor (values: Baseline)
      ensures this.values == values
    {
      this.values := values;
    }

    /** Derives one point and moves the baseline past it. */
    method BuildSeriesPoint(p: Poll, start: int) returns (point: SeriesPoint, keep: bool)
      modifies this
      ensures point == PointOf(p, old(values)) && keep == (start <= p.ts)
      ensures values == Updated(p, old(values))
    {
      point := PointOf(p, values);
      keep := !(p.ts < start);
      values := Updated(p, values);
    }
  }

  /** `AND p.id IN (...)`; no list keeps every poll. */
  function Chosen(ps: seq<Poll>, ids: Option<set<int>>): seq<Poll> {
    if ps == [] then []
    else if ids.None? || Last(ps).id in ids.value then Chosen(Init(ps), ids) + [Last(ps)]
    else Chosen(Init(ps), ids)
  }

  lemma {:induction false} ChosenAreListed(ps: seq<Poll>, ids: Option<set<int>>)
    ensures forall p :: p in Chosen(ps, ids) <==> p in ps && (ids.Some? ==> p.id in ids.value)
  {
    if ps != [] {
      ChosenAreListed(Init(ps), ids);
      assert ps == Init(ps) + [Last(ps)];
    }
  }

  lemma {:induction false} ChosenOrdered(ps: seq<Poll>, ids: Option<set<int>>)
    requires Ordered(ps)
    ensures Ordered(Chosen(ps, ids))
  {
    if ps != [] {
      ChosenOrdered(Init(ps), ids);
      ChosenAreListed(Init(ps), ids);
      forall p | p in Init(ps) ensures Before(p, Last(ps)) && p.id != Last(ps).id {}
    }
  }

  lemma {:induction false} ChooseAll(ps: seq<Poll>, ids: Option<set<int>>)
    requires ids.Some? ==> forall i :: 0 <= i < |ps| ==> ps[i].id in ids.value
    ensures Chosen(ps, ids) == ps
  {
    if ps != [] {
      ChooseAll(Init(ps), ids);
      assert ps == Init(ps) + [Last(ps)];
    }
  }

  lemma {:induction false} ChooseNone(ps: seq<Poll>)
    ensures Chosen(ps, Some({})) == []
  {
    if ps != [] {
      ChooseNone(Init(ps));
    }
  }

  /** The polls a read over [start, end] folds. */
  function Folded(db: seq<Poll>, start: int, end: int, ids: Option<set<int>>): seq<Poll> {
    Views(Chosen(Between(db, start, end + 1), ids))
  }

  function LastOf(ps: seq<Poll>): Option<Poll> {
    if ps == [] then None else Some(Last(ps))
  }

  function InitOf(ps: seq<Poll>): seq<Poll> {
    if ps == [] then [] else Init(ps)
  }

  lemma {:induction false} RowsStartLate(ps: seq<Poll>, start: int)
    requires forall i :: 0 <= i < |ps| ==> start <= ps[i].ts
    ensures forall i :: 0 <= i < |Rows(ps)| ==> start <= Rows(ps)[i].ts
  {
    if ps != [] {
      RowsStartLate(Init(ps), start);
      PollRowsShareTime(Last(ps), KEY_ORDER);
    }
  }

  lemma {:induction false} PollRowsShareTime(p: Poll, keys: seq<Key>)
    ensures forall i :: 0 <= i < |RowsOf(p, keys)| ==> RowsOf(p, keys)[i].ts == p.ts
  {
    if keys != [] {
      PollRowsShareTime(p, Init(keys));
    }
  }

  /** The row loop: a poll is flushed when the first row of the next one arrives, and after the last row. */
  method FoldRows(rows: seq<Row>, start: int, previous: BaselineTable) returns (points: seq<SeriesPoint>)
    requires forall i :: 0 <= i < |rows| ==> start <= rows[i].ts
    modifies previous
    ensures points == Points(Gathered(rows), old(previous.values))
    ensures previous.values == State(Gathered(rows), old(previous.values))
  {
    hide Points, State, Gathered;
    ghost var base := previous.values;
    ghost var gathered: seq<Poll> := [];
    NothingFolded(base);
    points := [];
    var current: Option<Poll> := None;
    var i := 0;
    while i < |rows|
      invariant 0 <= i <= |rows|
      invariant gathered == Gathered(rows[..i])
      invariant current == LastOf(gathered)
      invariant points == Points(InitOf(gathered), base)
      invariant previous.values == State(InitOf(gathered), base)
      invariant current.Some? ==> start <= current.value.ts
    {
      var row := rows[i];
      NextGathered(rows, i);
      if current.None? || current.value.id != row.pollId {
        points := Flush(current, start, previous, points, gathered, base);
        current := Some(FirstRow(row));
        assert InitOf(gathered + [FirstRow(row)]) == gathered;
        gathered := gathered + [FirstRow(row)];
      } else {
        current := Some(NextRow(current.value, row));
        assert InitOf(InitOf(gathered) + [current.value]) == InitOf(gathered);
        gathered := InitOf(gathered) + [current.value];
      }
      i := i + 1;
    }
    assert rows[..i] == rows;
    points := Flush(current, start, previous, points, gathered, base);
  }

  lemma {:induction false} NextGathered(rows: seq<Row>, i: nat)
    requires i < |rows|
    ensures
      var sofar, row := Gathered(rows[..i]), rows[i];
      Gathered(rows[..i + 1]) ==
        if sofar == [] || Last(sofar).id != row.pollId
        then sofar + [FirstRow(row)]
        else InitOf(sofar) + [NextRow(Last(sofar), row)]
  {
    assert rows[..i + 1] == rows[..i] + [rows[i]];
    GatherStep(rows[..i], rows[i]);
  }

  lemma {:induction false} NothingFolded(base: Baseline)
    ensures Points([], base) == [] && State([], base) == base && Gathered([]) == []
  {
  }

  method Flush(current: Option<Poll>, start: int, previous: BaselineTable, points: seq<SeriesPoint>,
               ghost gathered: seq<Poll>, ghost base: Baseline)
    returns (r: seq<SeriesPoint>)
    requires current == LastOf(gathered)
    requires current.Some? ==> start <= current.value.ts
    requires points == Points(InitOf(gathered), base) && previous.values == State(InitOf(gathered), base)
    modifies previous
    ensures r == Points(gathered, base) && previous.values == State(gathered, base)
  {
    r := points;
    if current.Some? {
      var point, keep := previous.BuildSeriesPoint(current.value, start);
      if keep {
        r := r + [point];
      }
    }
  }

  method SeriesWithBaseline(db: seq<Poll>, start: int, end: int, ids: Option<set<int>>, previous: BaselineTable)
    returns (series: SeriesData)
    requires Ordered(db)
    modifies previous
    ensures series == SeriesOf(start, end, Points(Folded(db, start, end, ids), old(previous.values)))
    ensures previous.values == State(Folded(db, start, end, ids), old(previous.values))
  {
    var polls := Chosen(Between(db, start, end + 1), ids);
    BetweenOrdered(db, start, end + 1);
    ChosenOrdered(Between(db, start, end + 1), ids);
    GatherRows(polls);
    BetweenContents(db, start, end + 1);
    ChosenAreListed(Between(db, start, end + 1), ids);
    RowsStartLate(polls, start);
    var points := FoldRows(Rows(polls), start, previous);
    series := SeriesData(start, end, points, 0, None, None);
    if |points| > 0 {
      series := series.(firstPollId := points[0].pollId, latestPoint := Some(Last(points)));
    }
    series := SetCurrentHostDisk(series);
  }

  function SetCurrentHostDisk(series: SeriesData): SeriesData {
    var cleared := series.(currentHostDisk := None);
    if |series.points| == 0 then cleared
    else cleared.(currentHostDisk := DiskOf(Last(series.points)))
  }

  // ---------- Reads ----------

  /** Go's zero time; a cutoff of this value means that no cutoff is in force. */
  const ZERO_TIME := 0

  const COUNTER_LIST: seq<Key> :=
    [HttpRequestsTotal, Http404Total, Http4xxTotal, Http5xxTotal, HttpRequestTimeTotal]

  method PreviousCounterValuesFrom(db: seq<Poll>, before: int, keys: seq<Key>, cutoff: int)
    returns (previous: Baseline)
    ensures previous == map k | k in keys && LastCarrier(Between(db, cutoff, before), k).Some?
                          :: Entry(LastCarrier(Between(db, cutoff, before), k).value, k)
  {
    previous := map[];
    ghost var rows := Between(db, cutoff, before);
    var i := 0;
    while i < |keys|
      invariant 0 <= i <= |keys|
      invariant forall k :: k in previous <==> k in keys[..i] && LastCarrier(rows, k).Some?
      invariant forall k :: k in previous ==> previous[k] == Entry(LastCarrier(rows, k).value, k)
    {
      var key := keys[i];
      var candidates := if cutoff == ZERO_TIME then Between(db, 0, before) else Between(db, cutoff, before);
      var row := LastCarrier(candidates, key);
      if row.Some? {
        previous := previous[key := Entry(row.value, key)];
      }
      assert keys[..i + 1] == keys[..i] + [key];
      i := i + 1;
    }
    assert keys[..i] == keys;
  }

  lemma {:induction false} CounterListIsComplete(k: Key)
    ensures k in COUNTER_KEYS <==> k in COUNTER_LIST
  {
  }

  /** Reads the baselines of all five counters. */
  method ReadBaseline(db: seq<Poll>, before: int, cutoff: int) returns (previous: Baseline)
    ensures previous == BaselineOf(db, before, cutoff)
  {
    previous := PreviousCounterValuesFrom(db, before, COUNTER_LIST, cutoff);
    forall k ensures k in COUNTER_KEYS <==> k in COUNTER_LIST { CounterListIsComplete(k); }
  }

  /** No id list reads every poll; an empty id list reads none. */
  method SeriesForPolls(db: seq<Poll>, start: int, end: int, ids: Option<set<int>>, cutoff: int)
    returns (series: SeriesData)
    requires Ordered(db)
    ensures series == SeriesOf(start, end, Points(Folded(db, start, end, ids), BaselineOf(db, start, cutoff)))
  {
    if ids.Some? && ids.value == {} {
      ChooseNone(Between(db, start, end + 1));
      return SeriesData(start, end, [], 0, None, None);
    }
    var values := ReadBaseline(db, start, cutoff);
    var previous := new BaselineTable(values);
    series := SeriesWithBaseline(db, start, end, ids, previous);
  }

  datatype ReadError = StartNotBeforeEnd | PollLimitExceeded

  /** The plain read: every poll of the window folded from the last stored baselines. */
  function NativePoints(db: seq<Poll>, start: int, end: int, cutoff: int): seq<SeriesPoint> {
    Points(Folded(db, start, end, None), BaselineOf(db, start, cutoff))
  }

  method ReadSeries(db: seq<Poll>, start: int, end: int) returns (r: Result<SeriesData, ReadError>)
    requires Ordered(db)
    ensures r == if start < end then Success(SeriesOf(start, end, NativePoints(db, start, end, ZERO_TIME)))
                 else Failure(StartNotBeforeEnd)
  {
    if !(start < end) {
      return Failure(StartNotBeforeEnd);
    }
    var series := SeriesForPolls(db, start, end, None, ZERO_TIME);
    return Success(series);
  }

  const PUBLIC_POLL_LIMIT := 4096

  function BoundedResult(db: seq<Poll>, start: int, end: int, cutoff: int): Result<SeriesData, ReadError> {
    if !(start < end) then Failure(StartNotBeforeEnd)
    else if |Between(db, start, end + 1)| > PUBLIC_POLL_LIMIT then Failure(PollLimitExceeded)
    else Success(SeriesOf(start, end, NativePoints(db, start, end, cutoff)))
  }

  method BoundedSeries(db: seq<Poll>, start: int, end: int, cutoff: int) returns (r: Result<SeriesData, ReadError>)
    requires Ordered(db)
    ensures r == BoundedResult(db, start, end, cutoff)
  {
    if !(start < end) {
      return Failure(StartNotBeforeEnd);
    }
    var window := Between(db, start, end + 1);
    var listed := if |window| <= PUBLIC_POLL_LIMIT + 1 then window else window[..PUBLIC_POLL_LIMIT + 1];
    if |listed| > PUBLIC_POLL_LIMIT {
      return Failure(PollLimitExceeded);
    }
    var ids := set p | p in listed :: p.id;
    ChooseAll(window, Some(ids));
    ChooseAll(window, None);
    var series := SeriesForPolls(db, start, end, Some(ids), cutoff);
    return Success(series);
  }
}
