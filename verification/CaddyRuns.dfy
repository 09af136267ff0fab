/** A Caddy target over its whole life: collector, monitor and database with failing scrapes, failing storage calls,
    restarts of StatLite and retention. */
module CaddyRuns {
  import opened Common
  import opened Polls
  import opened Collection
  import opened CaddyPopulation
  import opened CaddyTotals
  import opened CaddyCollector
  import opened Database
  import Monitor

  // ---------- The machine ----------

  /** `seen` remembers which population each stored poll id was computed from; the clock is the latest poll start. */
  datatype World = World(
    settings: Settings,
    memory: Memory,
    mon: Monitor.State,
    db: Db,
    seen: map<int, Population>,
    clock: nat)

  datatype Action =
    | Poll(scrape: Scrape, result: CollectionResult, err: Option<CollectError>, now: nat, calls: Monitor.Calls)
    | LoadHistory(load: Call, now: nat)
    | Restart(settings: Settings)
    | EnableNoPoll(history: Monitor.Reads)
    | DeleteBefore(cutoff: int)

  ghost function Begin(settings: Settings): World {
    World(settings, FORGOTTEN, Monitor.FRESH, EMPTY, map[], 0)
  }

  /** What may happen next: a poll that starts no earlier than the one before and gets new ids, whatever the scrape and
      the storage calls do; or any of the other actions. */
  ghost predicate Possible(w: World, a: Action) {
    match a
    case Poll(scrape, result, err, now, calls) =>
      && Parsed(scrape.samples)
      && Reports(result, err, Times(result.started, result.finished), Gathered(w.settings, scrape), w.memory)
      && w.clock <= result.started
      && (forall r :: r in w.db.runs ==> r.id < calls.newRun)
      && (forall r :: r in w.db.rows ==> r.poll.id < calls.newPoll)
    case Restart(settings) => settings.selector.printable == w.settings.selector.printable
    case _ => true
  }

  function ErrorText(err: Option<CollectError>): Option<string> {
    if err.None? then None else Some(err.value.Message())
  }

  /** Whether a polling cycle gets as far as the collector. */
  predicate Asks(w: World, now: nat, calls: Monitor.Calls) {
    !w.mon.noPoll && Monitor.Loaded(w.mon, w.db, calls.load, now).Success?
  }

  function RowsFrom(rows: seq<PollRow>, cutoff: int): seq<PollRow> {
    if rows == [] then []
    else if cutoff <= Last(rows).poll.ts then RowsFrom(Init(rows), cutoff) + [Last(rows)]
    else RowsFrom(Init(rows), cutoff)
  }

  ghost function AfterPoll(w: World, a: Action): World
    requires a.Poll?
  {
    var (mon, db) := Monitor.PollStep(w.mon, w.db, Attempt(Some(a.result), ErrorText(a.err)), a.now, a.calls);
    var gathered := Gathered(w.settings, a.scrape);
    if !Asks(w, a.now, a.calls) then w.(mon := mon, db := db)
    else if gathered.None? then w.(mon := mon, db := db, memory := FORGOTTEN, clock := a.result.started)
    else
      w.(mon := mon, db := db, memory := Memory(Some(gathered.value.tuples), gathered.value.server),
         seen := w.seen[a.calls.newPoll := gathered.value], clock := a.result.started)
  }

  ghost function After(w: World, a: Action): World {
    match a
    case Poll(_, _, _, _, _) => AfterPoll(w, a)
    case LoadHistory(load, now) =>
      var loaded := Monitor.Loaded(w.mon, w.db, load, now);
      if loaded.Success? then w.(mon := loaded.value) else w
    case Restart(settings) => w.(settings := settings, memory := FORGOTTEN, mon := Monitor.FRESH)
    case EnableNoPoll(history) => w.(mon := Monitor.Enabled(w.mon, w.db, history))
    case DeleteBefore(cutoff) => w.(db := w.db.(rows := RowsFrom(w.db.rows, cutoff)))
  }

  ghost function Reached(settings: Settings, actions: seq<Action>): World {
    if actions == [] then Begin(settings) else After(Reached(settings, Init(actions)), Last(actions))
  }

  ghost predicate PossibleRun(settings: Settings, actions: seq<Action>) {
    actions != [] ==> PossibleRun(settings, Init(actions)) && Possible(Reached(settings, Init(actions)), Last(actions))
  }

  // ---------- The coupling invariant ----------

  /** The later population belongs to the same server and no tuple was lost or dropped. */
  predicate Continues(a: Population, b: Population) {
    a.server == b.server && GrowsTo(a.tuples, b.tuples)
  }

  ghost predicate Complete(p: Population, printable: char -> bool) {
    Paired(p.tuples) && WellFormed(p.tuples) && Genuine(p.tuples, printable)
  }

  /** What outlives a restart of StatLite, with the populations behind the stored polls. */
  datatype Books = Books(printable: char -> bool, db: Db, seen: map<int, Population>, clock: nat)

  function BooksOf(w: World): Books {
    Books(w.settings.selector.printable, w.db, w.seen, w.clock)
  }

  /** Failed polls hold no samples; a successful one holds the sums of its population and a known run. */
  ghost predicate Fits(b: Books, row: PollRow) {
    && row.poll.ts <= b.clock
    && if row.poll.run.None? then row.poll.samples == map[]
       else
         && row.poll.id in b.seen
         && Carried(row.poll.samples, b.seen[row.poll.id].tuples)
         && Complete(b.seen[row.poll.id], b.printable)
         && RunAt(b.db.runs, row.poll.run.value).Some?
  }

  /** Runs never go back, and inside a run populations only grow. */
  ghost predicate Successive(seen: map<int, Population>, x: PollRow, y: PollRow) {
    x.poll.run.Some? && y.poll.run.Some? && Before(x.poll, y.poll) ==>
      && x.poll.run.value <= y.poll.run.value
      && (x.poll.run == y.poll.run && x.poll.id in seen && y.poll.id in seen ==>
            Continues(seen[x.poll.id], seen[y.poll.id]))
  }

  ghost predicate Kept(b: Books) {
    && InTimeOrder(b.db.rows)
    && (forall r :: r in b.db.rows ==> Fits(b, r))
    && (forall x, y :: x in b.db.rows && y in b.db.rows ==> Successive(b.seen, x, y))
  }

  /** A run can take this population: it is the newest run, and its polls' populations only grow to this one. */
  ghost predicate Takes(b: Books, run: int, p: Population) {
    forall r :: r in b.db.rows && r.poll.run.Some? ==>
      && r.poll.run.value <= run
      && (r.poll.run.value == run && r.poll.id in b.seen ==> Continues(b.seen[r.poll.id], p))
  }

  /** This monitor's own latest attempt succeeded, so that it would carry its run on. */
  predicate Unbroken(m: Monitor.State) {
    && !m.noPoll && m.status.lastSuccessAt.Some? && m.status.failures == 0
    && m.previous.Some? && m.previous.value.row.poll.run.Some?
  }

  /** Between polls the collector remembers the very population that the monitor's run, a stored one, ends with. */
  ghost predicate Coupled(memory: Memory, m: Monitor.State, b: Books) {
    && (m.status.lastSuccessAt.Some? && !m.noPoll ==> m.previous.Some?)
    && (Unbroken(m) ==>
          && memory.previous.Some?
          && RunAt(b.db.runs, m.previous.value.row.poll.run.value).Some?
          && Takes(b, m.previous.value.row.poll.run.value, Population(memory.server, memory.previous.value)))
  }

  ghost predicate Sound(w: World) {
    Kept(BooksOf(w)) && Coupled(w.memory, w.mon, BooksOf(w))
  }
}
