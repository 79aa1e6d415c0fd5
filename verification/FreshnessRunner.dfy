/** The collector's worker: its methods edit the cursor row, the event log and the
    round's state in place, and are proved to take exactly the steps of Freshness.
  */
module FreshnessRunner {
  import opened Options
  import opened Ranges
  import opened Freshness
  import opened FreshnessRuns

  class Runner {
    // Database rows.
    var cursor: Cursor
    var events: seq<Event>
    var runs: nat
    var orphan: bool

    // The worker's memory.
    var active: bool
    var run: nat
    var budget: nat
    var state: State
    var filtered: seq<int>
    var revalidate: Option<int>
    var located: nat
    var scanned: nat
    var requests: nat
    var stop: string

    ghost function Memory(): (r: Round)
      reads this
    {
      Round(run, budget, state, filtered, revalidate, located, scanned, requests, stop)
    }

    ghost function Snapshot(): (w: World)
      reads this
    {
      World(cursor, events, runs, if active then Some(Memory()) else None, orphan)
    }

    /** An idle worker before its first round. */
    constructor (row: Cursor)
      ensures Snapshot() == World(row, [], 0, None, false)
    {
      cursor, events, runs, orphan := row, [], 0, false;
      active, run, budget := false, 0, 0;
      state := State(Locate, 0, 0, Search(0, None, 1), [], []);
      filtered, revalidate, located, scanned, requests, stop := [], None, 0, 0, 0, "";
    }

    /** `_save_state`. */
    method SaveState()
      modifies this`cursor
      ensures cursor == Saved(old(cursor), state)
    {
      cursor := cursor.(strategy := Some(state));
      cursor := cursor.(nextProbe := Some(if state.pending != [] then state.pending[0].lower else state.frontier + 1));
    }

    /** The dictionary edits of an empty scan: put, then drop the oldest when too many. */
    method Postpone(id: int, at: int)
      requires |state.deferred| <= MAX_DEFERRED
      modifies this`state
      ensures state == old(state).(deferred := Postponed(old(state).deferred, id, at))
    {
      state := state.(deferred := Put(state.deferred, id, at));
      if |state.deferred| > MAX_DEFERRED {
        var k := Oldest(state.deferred);
        state := state.(deferred := state.deferred[..k] + state.deferred[k + 1..]);
      }
    }

    method FinishId(id: int)
      modifies this`state
      ensures state == Finished(old(state), id)
    {
      var left := Remove(state.pending, id);
      state := state.(pending := left, deferred := Pop(state.deferred, id));
    }

    /** The loop over the located IDs that a known value excludes. */
    method FinishFiltered()
      modifies this`state
      ensures state == AllFinished(old(state), filtered)
    {
      for k := 0 to |filtered|
        invariant AllFinished(state, filtered[k..]) == AllFinished(old(state), filtered)
      {
        assert filtered[k..][1..] == filtered[k + 1..];
        FinishId(filtered[k]);
      }
    }

    /** `_record_fresh`; `boundary` is what `_locate_record` decided before it. */
    method RecordFresh(probe: int, outcome: Outcome, phase: Phase, recordedAt: nat, boundary: bool)
      requires |state.deferred| <= MAX_DEFERRED
      modifies this`cursor, this`events, this`state, this`filtered, this`requests, this`stop
      ensures requests == old(requests) + 1
      ensures filtered == Noted(old(filtered), phase, probe, outcome)
      ensures state == Settled(old(state), filtered, phase, probe, outcome, recordedAt + RETRY_MS)
      ensures stop == Stopped(old(stop), outcome)
      ensures cursor == Saved(old(cursor).(lastSuccess := Seen(old(cursor).lastSuccess, probe, outcome.status)), state)
      ensures events == old(events) + [Event(run, probe, phase, outcome.status, outcome.deferredStop, boundary)]
    {
      requests := requests + 1;
      match outcome.status {
        case Report(valueFiltered) =>
          if phase.Locate? && outcome.deferredStop == "" && valueFiltered && probe !in filtered {
            filtered := filtered + [probe];
          }
          if cursor.lastSuccess.None? || probe > cursor.lastSuccess.value {
            cursor := cursor.(lastSuccess := Some(probe));
          }
          if phase.Scan? && outcome.deferredStop == "" {
            FinishId(probe);
          }
        case Empty =>
          if phase.Scan? {
            Postpone(probe, recordedAt + RETRY_MS);
          }
        case Failed(code) =>
          stop := code;
      }
      if outcome.deferredStop != "" {
        stop := outcome.deferredStop;
      }
      if phase.Locate? && state.phase.Scan? && !outcome.status.Failed? && outcome.deferredStop == "" {
        FinishFiltered();
      }
      SaveState();
      events := events + [Event(run, probe, phase, outcome.status, outcome.deferredStop, boundary)];
    }

    /** `_locate_record`. */
    method LocateRecord(probe: int, outcome: Outcome, recordedAt: nat)
      requires |state.deferred| <= MAX_DEFERRED
      modifies this`cursor, this`events, this`state, this`filtered, this`requests, this`stop
      ensures requests == old(requests) + 1
      ensures filtered == Noted(old(filtered), Locate, probe, outcome)
      ensures var found := Located(old(state), probe, outcome.status);
        && state == Settled(found, filtered, Locate, probe, outcome, recordedAt + RETRY_MS)
        && events == old(events)
                     + [Event(run, probe, Locate, outcome.status, outcome.deferredStop, found.phase.Scan?)]
      ensures stop == Stopped(old(stop), outcome)
      ensures cursor == Saved(old(cursor).(lastSuccess := Seen(old(cursor).lastSuccess, probe, outcome.status)), state)
    {
      match outcome.status {
        case Report(_) =>
          state := state.(search := state.search.(lower := Max(state.search.lower, probe)));
          if state.search.upper.Some? && probe >= state.search.upper.value {
            state := state.(search := state.search.(upper := None, step := 64));
          } else if state.search.upper.None? {
            state := state.(search := state.search.(step := Min(MAX_ID, Max(64, state.search.step * 2))));
          }
        case Empty =>
          state := state.(search := state.search.(upper := Some(probe)));
        case Failed(_) =>
      }
      assert state == old(state).(search := Narrowed(old(state).search, probe, outcome.status));
      SetFrontier(outcome.status);
      assert state == Located(old(state), probe, outcome.status);
      RecordFresh(probe, outcome, Locate, recordedAt, state.phase.Scan?);
    }

    /** The boundary branch of `_locate_record`. */
    method SetFrontier(status: Status)
      modifies this`state
      ensures var s := old(state);
        state == if Bracketed(s.search, status) then
          s.(frontier := s.search.lower, phase := Scan,
             pending := if s.search.lower > s.frontier
                        then Merged(s.pending + [Range(s.frontier + 1, s.search.lower)]) else s.pending)
        else s
    {
      if !status.Failed? && state.search.upper == Some(state.search.lower + 1) {
        var candidate := state.search.lower;
        if candidate > state.frontier {
          var merged := Merge(state.pending + [Range(state.frontier + 1, candidate)]);
          state := state.(pending := merged);
        }
        state := state.(frontier := candidate, phase := Scan);
      }
    }

    /** The nested loops that pick a scan's ID. */
    method SelectScan(history: bool, now: int) returns (probe: Option<int>)
      ensures probe == if history then Smallest(state.pending, state.deferred, now)
                       else Largest(state.pending, state.deferred, now)
    {
      var ranges := state.pending;
      var n := |ranges|;
      probe := None;
      var k := 0;
      assert ranges[..n] == ranges;
      while k < n && probe.None?
        invariant 0 <= k <= n
        invariant history ==> Smallest(ranges, state.deferred, now) ==
                              if probe.Some? then probe else Smallest(ranges[k..], state.deferred, now)
        invariant !history ==> Largest(ranges, state.deferred, now) ==
                               if probe.Some? then probe else Largest(ranges[..n - k], state.deferred, now)
        decreases n - k, probe.None?
      {
        var r := if history then ranges[k] else ranges[n - 1 - k];
        ghost var left := if history then ranges[k..] else ranges[..n - k];
        assert history ==> left[0] == r && left[1..] == ranges[k + 1..];
        assert !history ==> left[|left| - 1] == r && left[..|left| - 1] == ranges[..n - k - 1];
        var candidate := if history then r.lower else r.upper;
        while r.lower <= candidate <= r.upper && probe.None?
          invariant history ==> r.lower <= candidate
          invariant !history ==> candidate <= r.upper
          invariant history ==> SmallestIn(r.lower, r.upper, state.deferred, now) ==
                                if probe.Some? then probe else SmallestIn(candidate, r.upper, state.deferred, now)
          invariant !history ==> LargestIn(r.lower, r.upper, state.deferred, now) ==
                                 if probe.Some? then probe else LargestIn(r.lower, candidate, state.deferred, now)
          decreases probe.None?, if history then r.upper - candidate else candidate - r.lower
        {
          if RetryAt(state.deferred, candidate) <= now {
            probe := Some(candidate);
          } else {
            candidate := if history then candidate + 1 else candidate - 1;
          }
        }
        k := k + 1;
      }
    }

    /** The start of `_run_locked`: load, check, reopen the search and save. */
    method Begin(startId: Option<int>, requestBudget: nat) returns (ok: bool)
      requires !active && !orphan
      modifies this
      ensures Snapshot() == Opened(old(Snapshot()), startId, requestBudget)
      ensures ok == active
    {
      var loaded := Validated(cursor, startId);
      ok := loaded.Ok?;
      if ok {
        Resume(loaded.value, requestBudget);
      }
      runs := runs + 1;
    }

    method Resume(loaded: State, requestBudget: nat)
      modifies this`cursor, this`active, this`run, this`budget, this`state, this`filtered, this`revalidate,
               this`located, this`scanned, this`requests, this`stop
      ensures state == Reopened(loaded) && cursor == Saved(old(cursor), state)
      ensures active && Memory() == Round(runs, requestBudget, state, [], state.search.upper, 0, 0, 0, "")
    {
      state := loaded;
      run, budget, active := runs, requestBudget, true;
      filtered, located, scanned, requests, stop := [], 0, 0, 0, "";
      if state.phase.Scan? {
        state := state.(phase := Locate, search := Search(state.frontier, None, 1));
      }
      revalidate := state.search.upper;
      SaveState();
    }

    /** One turn of the loop, which breaks instead of probing when `done`. */
    method Turn(reply: Reply) returns (done: bool)
      requires active && |state.deferred| <= MAX_DEFERRED && requests < budget && stop == ""
      modifies this
      ensures Snapshot() == Iterated(old(Snapshot()), old(Memory()), reply)
      ensures done == !active
    {
      if state.phase.Locate? && located < LOCATE_BUDGET {
        done := LocateTurn(reply);
      } else if state.phase.Locate? && state.pending == [] {
        done := true;
      } else {
        done := ScanTurn(reply);
      }
      if done {
        active := false;
      }
    }

    method LocateTurn(reply: Reply) returns (done: bool)
      requires active && |state.deferred| <= MAX_DEFERRED
      modifies this
      ensures var plan := PlanLocate(old(Memory()));
        && done == plan.Halt?
        && (done ==> Snapshot() == old(Snapshot()))
        && (!done ==> Snapshot() == Recorded(old(Snapshot()), old(Memory()), plan.id, Locate, reply))
    {
      var plan := ChooseLocate();
      done := plan.Halt?;
      if !done {
        revalidate := None;
        located := located + 1;
        LocateRecord(plan.id, reply.outcome, reply.recordedAt);
      }
    }

    method ChooseLocate() returns (plan: Plan)
      ensures plan == PlanLocate(Memory())
    {
      if revalidate.Some? {
        plan := Ask(revalidate.value, Locate);
      } else if state.search.upper.Some? {
        plan := Ask((state.search.lower + state.search.upper.value) / 2, Locate);
      } else {
        var probe := Min(MAX_ID, state.search.lower + state.search.step);
        plan := if probe <= state.search.lower then Halt("id_limit") else Ask(probe, Locate);
      }
    }

    method ScanTurn(reply: Reply) returns (done: bool)
      requires active && |state.deferred| <= MAX_DEFERRED
      modifies this
      ensures var plan := PlanScan(old(Memory()), reply.now);
        && done == plan.Halt?
        && (done ==> cursor == old(cursor) && events == old(events) && runs == old(runs)
                     && orphan == old(orphan) && active)
        && (!done ==> Snapshot() == Recorded(old(Snapshot()), old(Memory()), plan.id, Scan, reply))
    {
      hide Settled, Noted, Saved, Seen, Stopped, Largest, Smallest;
      if state.pending == [] {
        return true;
      }
      scanned := scanned + 1;
      var recentFloor := Max(state.historyStart, state.frontier - RECENT_WINDOW + 1);
      var history := scanned % 4 == 0 && state.pending[0].lower < recentFloor;
      var probe := SelectScan(history, reply.now);
      if probe.None? {
        return true;
      }
      RecordFresh(probe.value, reply.outcome, Scan, reply.recordedAt, false);
      done := false;
    }

    /** `_run_locked` once the state is loaded. When `replies` runs out before the
        round has ended, the worker has died in the middle of it. */
    method RunLocked(replies: seq<Reply>)
      requires Tidy(Snapshot())
      modifies this
      ensures Snapshot() == Served(old(Snapshot()), replies)
    {
      var k := 0;
      while active && requests < budget && stop == "" && k < |replies|
        invariant 0 <= k <= |replies| && Tidy(Snapshot())
        invariant Served(Snapshot(), replies[k..]) == Served(old(Snapshot()), replies)
      {
        assert replies[k..][1..] == replies[k + 1..];
        var done := Turn(replies[k]);
        k := k + 1;
      }
      if active && !(requests < budget && stop == "") {
        active := false;
      }
    }
  }

  /** A round that meets the given replies one after the other. */
  function Served(w: World, replies: seq<Reply>): (w': World)
    requires Tidy(w)
    decreases |replies|
  {
    if w.round.None? then w
    else if w.round.value.requests >= w.round.value.budget || w.round.value.stop != "" then w.(round := None)
    else if replies == [] then w
    else Served(Step(w, Iterate(replies[0])), replies[1..])
  }

  /** What the method leaves behind is one of the runs that the claims are about. */
  lemma {:induction false} ServedIsRun(w: World, replies: seq<Reply>) returns (actions: seq<Action>)
    requires Tidy(w)
    ensures Served(w, replies) == Run(w, actions)
    ensures forall i :: 0 <= i < |actions| ==> actions[i].Iterate?
    decreases |replies|
  {
    if w.round.None? {
      actions := [];
    } else if w.round.value.requests >= w.round.value.budget || w.round.value.stop != "" {
      actions := [Iterate(Reply(0, Outcome(Empty, ""), 0))];
      assert Run(Step(w, actions[0]), []) == Step(w, actions[0]);
      assert actions[1..] == [];
    } else if replies == [] {
      actions := [];
    } else {
      var rest := ServedIsRun(Step(w, Iterate(replies[0])), replies[1..]);
      actions := [Iterate(replies[0])] + rest;
      assert actions[1..] == rest;
    }
  }
}
