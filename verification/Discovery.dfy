/** The consecutive-ID collector: leased runs over one cursor row.

    Each transaction is one atomic step; workers may die, lose their lease or be
    late at any point. A worker works on its own copy of the row and writes the
    whole copy back, so the copy must agree with the row whenever it is written.
  */
module Discovery {
  import opened Options

  const RUN_LEASE_MS: int := 90 * 1000
  const MAX_ID: int := 0x7FFF_FFFF_FFFF_FFFF

  /** The position fields of the cursor row. */
  datatype Cursor = Cursor(
    lastSuccess: Option<int>, lastTime: Option<int>, emptyCount: nat,
    nextProbe: Option<int>, provisional: Option<int>)

  datatype RunStatus = Running | Stopped | FailedRun

  datatype RunRow = RunRow(status: RunStatus, owner: Option<nat>, expires: Option<int>)

  datatype Database = Database(cursor: Cursor, runs: map<nat, RunRow>, nextRun: nat)

  /** A report may carry a readable time; a failure carries its stop reason. */
  datatype Status = Report(time: Option<int>) | Empty | Failed(code: Code)

  datatype Outcome = Outcome(status: Status, deferredStop: string)

  datatype Config = Config(startId: Option<int>, emptyThreshold: nat, maxRequests: nat)

  /** A worker's memory: its copy of the row and the counters of its round. */
  datatype Worker = Worker(
    config: Config, cursor: Cursor, firstEmpty: Option<int>, next: Option<int>, requests: nat, stop: string)

  /** Where a run over `cursor` begins. */
  function StartOf(cursor: Cursor, config: Config): (id: Option<int>)
  {
    if cursor.nextProbe.Some? then cursor.nextProbe
    else if cursor.lastSuccess.Some? then Some(cursor.lastSuccess.value + 1)
    else config.startId
  }

  // ---- Leases ----

  predicate Expired(row: RunRow, now: int)
  {
    row.status.Running? && (row.expires.None? || row.expires.value <= now)
  }

  predicate SomeExpired(db: Database, now: int)
  {
    exists r :: r in db.runs && Expired(db.runs[r], now)
  }

  predicate SomeRunning(db: Database)
  {
    exists r :: r in db.runs && db.runs[r].status.Running?
  }

  /** What `_owned` and the heartbeat's filter check. */
  predicate Live(db: Database, run: nat)
  {
    run in db.runs && db.runs[run].status.Running? && db.runs[run].owner == Some(run)
  }

  /** Provisional empty IDs are asked again. */
  function RolledBack(cursor: Cursor): (r: Cursor)
  {
    if cursor.provisional.Some? then cursor.(nextProbe := cursor.provisional, provisional := None) else cursor
  }

  /** `_recover_orphaned_runs`. */
  function Recovered(db: Database, now: int): (r: Database)
  {
    Database(
      if SomeExpired(db, now) then RolledBack(db.cursor) else db.cursor,
      map r | r in db.runs :: if Expired(db.runs[r], now) then RunRow(FailedRun, None, None) else db.runs[r],
      db.nextRun)
  }

  /** `_create_run`, with the run's number as its owner token. */
  function Created(db: Database, now: int): (r: Database)
  {
    db.(runs := db.runs[db.nextRun := RunRow(Running, Some(db.nextRun), Some(now + RUN_LEASE_MS))],
        nextRun := db.nextRun + 1)
  }

  // ---- Recording ----

  predicate TimeReversed(cursor: Cursor, time: Option<int>)
  {
    cursor.lastTime.Some? && time.Some? && time.value < cursor.lastTime.value
  }

  predicate Accepts(wk: Worker, status: Status)
  {
    status.Report? && !TimeReversed(wk.cursor, status.time)
  }

  /** The memory part of `_record`. */
  function Noted(wk: Worker, probe: int, o: Outcome): (r: Worker)
  {
    var w := wk.(requests := wk.requests + 1);
    var c := w.cursor;
    match o.status
    case Report(time) =>
      var w := if TimeReversed(c, time) then w.(stop := "time_reversed")
               else w.(firstEmpty := None,
                       cursor := Cursor(Some(probe), if time.Some? then time else c.lastTime, 0,
                                        Some(probe + 1), None));
      if o.deferredStop != "" then w.(stop := o.deferredStop) else w
    case Empty =>
      var w := if w.firstEmpty.None? then w.(firstEmpty := Some(probe), cursor := c.(provisional := Some(probe)))
               else w;
      var w := w.(cursor := w.cursor.(emptyCount := c.emptyCount + 1, nextProbe := Some(probe + 1)));
      if w.cursor.emptyCount >= w.config.emptyThreshold then w.(stop := "empty_threshold") else w
    case Failed(code) => w.(stop := code)
  }

  function Record(wk: Worker, probe: int, o: Outcome): (r: Worker)
  {
    var w := Noted(wk, probe, o);
    w.(next := w.cursor.nextProbe)
  }

  /** The row that `_finish` leaves. */
  function FinishedCursor(wk: Worker): (c: Cursor)
  {
    if wk.firstEmpty.Some? then wk.cursor.(nextProbe := wk.firstEmpty, provisional := None) else wk.cursor
  }

  // ---- The world ----

  /** Committed facts about runs: the row each began from, what each of its probes did, and its lease. */
  datatype Event =
    | Claimed(run: nat, config: Config, cursor: Cursor, at: int)
    | Started(run: nat)
    | Renewed(run: nat, at: int)
    | Ended(run: nat)
    | Probed(run: nat, probe: int, outcome: Outcome, accepted: bool)

  datatype World = World(db: Database, workers: map<nat, Worker>, log: seq<Event>)

  datatype Action =
    | Claim(config: Config, now: int, createdAt: int)
    | Start(run: nat)
    | Heartbeat(run: nat, now: int)
    | Probe(run: nat, outcome: Outcome)
    | Finish(run: nat)
    | Fail(run: nat)    // the exception exit: the run is marked failed, nothing is rolled back
    | Crash(run: nat)   // the worker disappears

  function Gone(w: World, run: nat): (w': World)
  {
    w.(workers := w.workers - {run})
  }

  function Claimant(db: Database, config: Config): (wk: Worker)
  {
    var next := StartOf(db.cursor, config);
    Worker(config, db.cursor, None, next, 0, if next.None? then "missing_start_id" else "")
  }

  function ClaimStep(w: World, config: Config, now: int, createdAt: int): (w': World)
  {
    var db := Recovered(w.db, now);
    if SomeRunning(db) then w
    else
      World(Created(db, createdAt),
            w.workers[db.nextRun := Claimant(db, config)],
            w.log + [Claimed(db.nextRun, config, db.cursor, createdAt)])
  }

  /** The loop of `_run_locked` goes on. */
  predicate Continues(wk: Worker)
  {
    wk.next.Some? && 1 <= wk.next.value <= MAX_ID && wk.requests < wk.config.maxRequests && wk.stop == ""
  }

  function ProbeStep(w: World, run: nat, wk: Worker, o: Outcome): (w': World)
    requires Continues(wk)
  {
    if !Live(w.db, run) then Gone(w, run)
    else
      var wk' := Record(wk, wk.next.value, o);
      World(w.db.(cursor := wk'.cursor), w.workers[run := wk'],
            w.log + [Probed(run, wk.next.value, o, Accepts(wk, o.status))])
  }

  function Step(w: World, a: Action): (w': World)
  {
    if a.Claim? then ClaimStep(w, a.config, a.now, a.createdAt)
    else if a.run !in w.workers then w
    else
      var wk := w.workers[a.run];
      match a
      case Start(run) =>
        if !Live(w.db, run) then Gone(w, run)
        else w.(db := w.db.(cursor := w.db.cursor.(emptyCount := 0)),
                workers := w.workers[run := wk.(cursor := wk.cursor.(emptyCount := 0))],
                log := w.log + [Started(run)])
      case Heartbeat(run, now) =>
        if !Live(w.db, run) then Gone(w, run)
        else w.(db := w.db.(runs := w.db.runs[run := w.db.runs[run].(expires := Some(now + RUN_LEASE_MS))]),
                log := w.log + [Renewed(run, now)])
      case Probe(run, outcome) => if Continues(wk) then ProbeStep(w, run, wk, outcome) else w
      case Finish(run) =>
        if !Live(w.db, run) then Gone(w, run)
        else Gone(w.(db := w.db.(cursor := FinishedCursor(wk),
                                 runs := w.db.runs[run := RunRow(Stopped, None, None)]),
                     log := w.log + [Ended(run)]), run)
      case Fail(run) =>
        if !Live(w.db, run) then Gone(w, run)
        else Gone(w.(db := w.db.(runs := w.db.runs[run := RunRow(FailedRun, None, None)]),
                     log := w.log + [Ended(run)]), run)
      case Crash(run) => Gone(w, run)
  }

  function Run(w: World, actions: seq<Action>): (w': World)
    decreases |actions|
  {
    if actions == [] then w else Run(Step(w, actions[0]), actions[1..])
  }

  function Fresh(cursor: Cursor): (w: World)
  {
    World(Database(cursor, map[], 0), map[], [])
  }
}
