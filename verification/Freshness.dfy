/** The latest-first collector as a specification: its stored state, one probe of
    its loop, and what a crash leaves behind.

    FreshnessRunner.dfy holds the class whose methods carry these steps out.
  */
module Freshness {
  import opened Options
  import opened Ranges

  const MAX_ID: int := 0x7FFF_FFFF_FFFF_FFFF
  const RETRY_MS: int := 30 * 60 * 1000
  const LOCATE_BUDGET: nat := 12
  const RECENT_WINDOW: int := 64
  const MAX_DEFERRED: nat := 128
  const MAX_STATE_RANGES: nat := 128

  predicate IsId(id: int)
  {
    1 <= id <= MAX_ID
  }

  // ---- Stored state ----

  datatype Phase = Locate | Scan

  datatype Search = Search(lower: int, upper: Option<int>, step: int)

  /** A pending ID that was empty and must not be asked again before `at`. */
  datatype Retry = Retry(id: int, at: int)

  datatype State = State(
    phase: Phase, frontier: int, historyStart: int, search: Search,
    pending: seq<Range>, deferred: seq<Retry>)

  /** The cursor row. `provisional` belongs to the consecutive-ID collector, which
      may have used the same row before; this collector never writes it. */
  datatype Cursor = Cursor(
    lastSuccess: Option<int>, nextProbe: Option<int>, provisional: Option<int>, strategy: Option<State>)

  // ---- The insertion-ordered `deferred_ids` dictionary ----

  function Keys(d: seq<Retry>): (s: set<int>)
  {
    if d == [] then {} else {d[0].id} + Keys(d[1..])
  }

  function RetryAt(d: seq<Retry>, id: int): (at: int)
  {
    if d == [] then 0 else if d[0].id == id then d[0].at else RetryAt(d[1..], id)
  }

  function Put(d: seq<Retry>, id: int, at: int): (r: seq<Retry>)
    ensures |r| <= |d| + 1
  {
    if d == [] then [Retry(id, at)]
    else if d[0].id == id then [Retry(id, at)] + d[1..]
    else [d[0]] + Put(d[1..], id, at)
  }

  function Pop(d: seq<Retry>, id: int): (r: seq<Retry>)
    ensures |r| <= |d|
  {
    if d == [] then [] else if d[0].id == id then Pop(d[1..], id) else [d[0]] + Pop(d[1..], id)
  }

  /** Position of the first entry with the smallest retry time. */
  function Oldest(d: seq<Retry>): (k: nat)
    requires d != []
    ensures k < |d|
  {
    if |d| == 1 then 0
    else
      var k := 1 + Oldest(d[1..]);
      if d[0].at <= d[k].at then 0 else k
  }

  /** Defer `id`; past MAX_DEFERRED entries the oldest retry time is dropped. */
  function Postponed(d: seq<Retry>, id: int, at: int): (r: seq<Retry>)
    requires |d| <= MAX_DEFERRED
    ensures |r| <= MAX_DEFERRED
  {
    var p := Put(d, id, at);
    if |p| > MAX_DEFERRED then p[..Oldest(p)] + p[Oldest(p) + 1..] else p
  }

  // ---- Loading a round's state ----

  predicate SearchAcceptable(s: State, lastSuccess: Option<int>)
  {
    && IsId(s.search.lower) && IsId(s.search.step)
    && lastSuccess.Some? && IsId(lastSuccess.value)
    && s.frontier <= s.search.lower <= lastSuccess.value
    && (s.search.upper.Some? ==> IsId(s.search.upper.value) && s.search.lower < s.search.upper.value)
  }

  predicate RangesAcceptable(s: State)
  {
    && |s.pending| <= MAX_STATE_RANGES
    && forall i :: 0 <= i < |s.pending| ==>
      && IsId(s.pending[i].lower) && IsId(s.pending[i].upper)
      && s.historyStart <= s.pending[i].lower <= s.pending[i].upper <= s.frontier
  }

  predicate DeferredAcceptable(s: State)
  {
    && |s.deferred| <= MAX_DEFERRED
    && forall i :: 0 <= i < |s.deferred| ==> IsId(s.deferred[i].id) && s.deferred[i].at >= 0
  }

  predicate Acceptable(s: State, lastSuccess: Option<int>)
  {
    && IsId(s.frontier) && IsId(s.historyStart) && s.historyStart <= s.frontier + 1
    && SearchAcceptable(s, lastSuccess)
    && RangesAcceptable(s)
    && DeferredAcceptable(s)
  }

  /** `_validated_state`. */
  function Validated(cursor: Cursor, startId: Option<int>): (r: Result<State, string>)
  {
    if cursor.strategy.None? then
      var seed := if cursor.lastSuccess.Some? then cursor.lastSuccess.value else 0;
      var history :=
        if cursor.nextProbe.Some? && cursor.nextProbe.value != 0 then cursor.nextProbe.value
        else if IsId(seed) then seed + 1
        else if startId.Some? then startId.value
        else 0;
      if !IsId(history) then Err("missing_start_id")
      else if !IsId(seed) then Err("missing_known_report")
      else if history > seed + 1 then Err("invalid_strategy_state")
      else Ok(State(Locate, seed, history, Search(seed, None, 1),
                    if history <= seed then Merged([Range(history, seed)]) else [], []))
    else
      var s := cursor.strategy.value;
      if Acceptable(s, cursor.lastSuccess) then Ok(s.(pending := Merged(s.pending)))
      else Err("invalid_strategy_state")
  }

  /** A round that finds a finished boundary looks for newer reports first. */
  function Reopened(s: State): (r: State)
  {
    if s.phase.Scan? then s.(phase := Locate, search := Search(s.frontier, None, 1)) else s
  }

  // ---- Outcomes, recorded events and the running round ----

  /** `valueFiltered`: a parsed report excluded by a known value. */
  datatype Status = Report(valueFiltered: bool) | Empty | Failed(code: Code)

  /** `deferredStop` is a transport stop learned while enriching, or "". */
  datatype Outcome = Outcome(status: Status, deferredStop: string)

  /** A committed probe; `boundary` says that it set the frontier. */
  datatype Event = Event(
    run: nat, probe: int, phase: Phase, status: Status, deferredStop: string, boundary: bool)

  /** What lives in the worker's memory only, besides a copy of the stored state. */
  datatype Round = Round(
    run: nat, budget: nat, state: State, filtered: seq<int>, revalidate: Option<int>,
    located: nat, scanned: nat, requests: nat, stop: string)

  /** `orphan`: a worker died and its run row still says RUNNING. */
  datatype World = World(cursor: Cursor, events: seq<Event>, runs: nat, round: Option<Round>, orphan: bool)

  // ---- Choosing the next probe ----

  predicate Eligible(d: seq<Retry>, now: int, id: int)
  {
    RetryAt(d, id) <= now
  }

  function LargestIn(lower: int, upper: int, d: seq<Retry>, now: int): (id: Option<int>)
    decreases upper - lower
  {
    if upper < lower then None
    else if Eligible(d, now, upper) then Some(upper)
    else LargestIn(lower, upper - 1, d, now)
  }

  function SmallestIn(lower: int, upper: int, d: seq<Retry>, now: int): (id: Option<int>)
    decreases upper - lower
  {
    if upper < lower then None
    else if Eligible(d, now, lower) then Some(lower)
    else SmallestIn(lower + 1, upper, d, now)
  }

  function Largest(rs: seq<Range>, d: seq<Retry>, now: int): (id: Option<int>)
  {
    if rs == [] then None
    else
      var last := rs[|rs| - 1];
      var here := LargestIn(last.lower, last.upper, d, now);
      if here.Some? then here else Largest(rs[..|rs| - 1], d, now)
  }

  function Smallest(rs: seq<Range>, d: seq<Retry>, now: int): (id: Option<int>)
  {
    if rs == [] then None
    else
      var here := SmallestIn(rs[0].lower, rs[0].upper, d, now);
      if here.Some? then here else Smallest(rs[1..], d, now)
  }

  /** Every fourth scan of a round serves the oldest work while it lies below the recent window. */
  predicate HistoryTurn(s: State, scans: nat)
    requires s.pending != []
  {
    scans % 4 == 0 && s.pending[0].lower < Max(s.historyStart, s.frontier - RECENT_WINDOW + 1)
  }

  datatype Plan = Halt(reason: string) | Ask(id: int, phase: Phase)

  function PlanLocate(r: Round): (p: Plan)
  {
    var search := r.state.search;
    if r.revalidate.Some? then Ask(r.revalidate.value, Locate)
    else if search.upper.Some? then Ask((search.lower + search.upper.value) / 2, Locate)
    else
      var id := Min(MAX_ID, search.lower + search.step);
      if id <= search.lower then Halt("id_limit") else Ask(id, Locate)
  }

  function PlanScan(r: Round, now: int): (p: Plan)
  {
    var s := r.state;
    if s.pending == [] then Halt("caught_up")
    else
      var choice := if HistoryTurn(s, r.scanned + 1) then Smallest(s.pending, s.deferred, now)
                    else Largest(s.pending, s.deferred, now);
      if choice.Some? then Ask(choice.value, Scan) else Halt("waiting_visibility")
  }

  function PlanProbe(r: Round, now: int): (p: Plan)
  {
    if r.state.phase.Locate? && r.located < LOCATE_BUDGET then PlanLocate(r)
    else if r.state.phase.Locate? && r.state.pending == [] then Halt("locate_budget")
    else PlanScan(r, now)
  }

  // ---- Recording an outcome ----

  function Narrowed(search: Search, probe: int, status: Status): (r: Search)
  {
    match status
    case Report(_) =>
      var lower := Max(search.lower, probe);
      if search.upper.Some? && probe >= search.upper.value then Search(lower, None, 64)
      else if search.upper.None? then Search(lower, None, Min(MAX_ID, Max(64, search.step * 2)))
      else search.(lower := lower)
    case Empty => search.(upper := Some(probe))
    case Failed(_) => search
  }

  predicate Bracketed(search: Search, status: Status)
  {
    !status.Failed? && search.upper == Some(search.lower + 1)
  }

  /** The part of `_locate_record` before the common recording. */
  function Located(s: State, probe: int, status: Status): (r: State)
  {
    var search := Narrowed(s.search, probe, status);
    if Bracketed(search, status) then
      s.(search := search, frontier := search.lower, phase := Scan,
         pending := if search.lower > s.frontier
                    then Merged(s.pending + [Range(s.frontier + 1, search.lower)]) else s.pending)
    else s.(search := search)
  }

  function Noted(filtered: seq<int>, phase: Phase, probe: int, outcome: Outcome): (r: seq<int>)
    ensures |r| <= |filtered| + 1
  {
    if phase.Locate? && outcome.deferredStop == "" && outcome.status == Report(true) && probe !in filtered
    then filtered + [probe] else filtered
  }

  function Finished(s: State, id: int): (r: State)
  {
    s.(pending := Removed(s.pending, id), deferred := Pop(s.deferred, id))
  }

  function AllFinished(s: State, ids: seq<int>): (r: State)
    ensures |r.deferred| <= |s.deferred|
    decreases |ids|
  {
    if ids == [] then s else AllFinished(Finished(s, ids[0]), ids[1..])
  }

  /** The effect of `_record_fresh` on the round's state. */
  function Settled(s: State, filtered: seq<int>, phase: Phase, probe: int, outcome: Outcome, retryAt: int): (r: State)
    requires |s.deferred| <= MAX_DEFERRED
    ensures |r.deferred| <= MAX_DEFERRED
  {
    if phase.Scan? then
      match outcome.status
      case Report(_) => if outcome.deferredStop == "" then Finished(s, probe) else s
      case Empty => s.(deferred := Postponed(s.deferred, probe, retryAt))
      case Failed(_) => s
    else if s.phase.Scan? && !outcome.status.Failed? && outcome.deferredStop == "" then AllFinished(s, filtered)
    else s
  }

  function Seen(last: Option<int>, probe: int, status: Status): (r: Option<int>)
  {
    if status.Report? && (last.None? || probe > last.value) then Some(probe) else last
  }

  function Stopped(stop: string, outcome: Outcome): (r: string)
  {
    if outcome.deferredStop != "" then outcome.deferredStop
    else if outcome.status.Failed? then outcome.status.code
    else stop
  }

  /** The public historical position: nothing at or above it has been given up. */
  function Position(s: State): (id: int)
  {
    if s.pending != [] then s.pending[0].lower else s.frontier + 1
  }

  function Saved(cursor: Cursor, s: State): (r: Cursor)
  {
    cursor.(strategy := Some(s), nextProbe := Some(Position(s)))
  }

  // ---- Steps ----

  /** What the outside world answers in one iteration: two clock readings and an outcome. */
  datatype Reply = Reply(now: int, outcome: Outcome, recordedAt: nat)

  datatype Action =
    | Begin(startId: Option<int>, budget: nat)
    | Iterate(reply: Reply)
    | Abort    // an exception or a lost lease ends the worker, which marks its run failed
    | Crash    // the worker dies and leaves its run running
    | Recover  // a later claim finds the lease expired

  function Opened(w: World, startId: Option<int>, budget: nat): (r: World)
  {
    var v := Validated(w.cursor, startId);
    if v.Err? then w.(runs := w.runs + 1)
    else
      var s := Reopened(v.value);
      World(Saved(w.cursor, s), w.events, w.runs + 1,
            Some(Round(w.runs, budget, s, [], s.search.upper, 0, 0, 0, "")), w.orphan)
  }

  /** The transaction that records one probe, and the memory it leaves. */
  function Recorded(w: World, r: Round, probe: int, phase: Phase, reply: Reply): (w': World)
    requires |r.state.deferred| <= MAX_DEFERRED
  {
    var o := reply.outcome;
    var found := if phase.Locate? then Located(r.state, probe, o.status) else r.state;
    var filtered := Noted(r.filtered, phase, probe, o);
    var state := Settled(found, filtered, phase, probe, o, reply.recordedAt + RETRY_MS);
    var cursor := Saved(w.cursor.(lastSuccess := Seen(w.cursor.lastSuccess, probe, o.status)), state);
    var event := Event(r.run, probe, phase, o.status, o.deferredStop, phase.Locate? && found.phase.Scan?);
    World(cursor, w.events + [event], w.runs,
          Some(r.(state := state, filtered := filtered,
                  revalidate := if phase.Locate? then None else r.revalidate,
                  located := if phase.Locate? then r.located + 1 else r.located,
                  scanned := if phase.Scan? then r.scanned + 1 else r.scanned,
                  requests := r.requests + 1, stop := Stopped(r.stop, o))), w.orphan)
  }

  /** One turn of the loop of `_run_locked`, or the end of the round. */
  function Iterated(w: World, r: Round, reply: Reply): (w': World)
    requires |r.state.deferred| <= MAX_DEFERRED
  {
    if r.requests >= r.budget || r.stop != "" then w.(round := None)
    else
      var plan := PlanProbe(r, reply.now);
      if plan.Halt? then w.(round := None) else Recorded(w, r, plan.id, plan.phase, reply)
  }

  /** The cursor change of `_recover_orphaned_runs`. */
  function Recovered(cursor: Cursor): (r: Cursor)
  {
    if cursor.provisional.Some? then cursor.(nextProbe := cursor.provisional, provisional := None) else cursor
  }

  predicate Tidy(w: World)
  {
    w.round.Some? ==> |w.round.value.state.deferred| <= MAX_DEFERRED
  }

  function Step(w: World, a: Action): (w': World)
    requires Tidy(w)
    ensures Tidy(w')
  {
    match a
    case Begin(startId, budget) => if w.round.Some? || w.orphan then w else Opened(w, startId, budget)
    case Iterate(reply) => if w.round.Some? then Iterated(w, w.round.value, reply) else w
    case Abort => w.(round := None)
    case Crash => w.(round := None, orphan := w.orphan || w.round.Some?)
    case Recover => if w.orphan then w.(orphan := false, cursor := Recovered(w.cursor)) else w
  }
}
