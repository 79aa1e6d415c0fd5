/** One round of the collector. */
module FreshnessRounds {
  // What it starts from, when it goes on, and what each of its probes does to the queue.
  import opened Options
  import opened Ranges
  import opened Freshness
  import opened FreshnessScan
  import opened FreshnessSafety
  import opened FreshnessRuns
  import opened FreshnessSearch

  // ---- What a round starts from ----

  /** Without a stored strategy a round needs a known report, and begins the history at the stored
      position or after that report, never further on. */
  lemma FirstStateExactly(cursor: Cursor, startId: Option<int>)
    requires cursor.strategy.None?
    ensures var seed := if cursor.lastSuccess.Some? then cursor.lastSuccess.value else 0;
      var start := if cursor.nextProbe.Some? && cursor.nextProbe.value != 0 then cursor.nextProbe.value else seed + 1;
      && (Validated(cursor, startId).Ok? <==>
          1 <= seed <= MAX_ID && 1 <= start <= MAX_ID && start <= seed + 1)
      && (Validated(cursor, startId).Ok? ==>
          Validated(cursor, startId).value
          == State(Locate, seed, start, Search(seed, None, 1),
                   if start <= seed then Merged([Range(start, seed)]) else [], []))
      && (1 <= seed <= MAX_ID && Validated(cursor, startId).Err? ==>
          Validated(cursor, startId).error
          == if 1 <= start <= MAX_ID then "invalid_strategy_state" else "missing_start_id")
      && (!(1 <= seed <= MAX_ID) ==>
          var stored := cursor.nextProbe.Some? && cursor.nextProbe.value != 0;
          Validated(cursor, startId)
          == Err(if if stored then IsId(start) else startId.Some? && IsId(startId.value) then "missing_known_report"
                 else "missing_start_id"))
  {
  }

  /** A stored strategy is taken exactly if all its parts fit: the history below the frontier, the search
      between the frontier and the last report, at most 128 ranges within the history, and at most 128
      deferred IDs. Its ranges are merged again. */
  lemma StoredStateExactly(cursor: Cursor, startId: Option<int>)
    requires cursor.strategy.Some?
    ensures var s, last := cursor.strategy.value, cursor.lastSuccess;
      && (Validated(cursor, startId).Ok? <==>
          && IsId(s.frontier) && IsId(s.historyStart) && s.historyStart - 1 <= s.frontier
          && IsId(s.search.lower) && IsId(s.search.step) && last.Some? && IsId(last.value)
          && s.frontier <= s.search.lower <= last.value
          && (s.search.upper.Some? ==> s.search.lower + 1 <= s.search.upper.value <= MAX_ID)
          && |s.pending| <= 128 && (forall r :: r in s.pending ==> s.historyStart <= r.lower <= r.upper <= s.frontier)
          && |s.deferred| <= 128 && (forall d :: d in s.deferred ==> IsId(d.id) && d.at >= 0))
      && (Validated(cursor, startId).Ok? ==> Validated(cursor, startId).value == s.(pending := Merged(s.pending)))
  {
    var s := cursor.strategy.value;
    assert forall i :: 0 <= i < |s.pending| ==> s.pending[i] in s.pending;
    assert forall i :: 0 <= i < |s.deferred| ==> s.deferred[i] in s.deferred;
  }

  // ---- What the events of a round say ----

  function Probes(events: seq<Event>, run: nat, phase: Phase): (n: nat)
  {
    if events == [] then 0
    else
      var e := events[|events| - 1];
      Probes(events[..|events| - 1], run, phase) + if e.run == run && e.phase == phase then 1 else 0
  }

  /** The reason that a probe of the run has given to stop: a transport stop or a failure. */
  function StopOf(events: seq<Event>, run: nat): (reason: string)
  {
    if events == [] then ""
    else
      var e := events[|events| - 1];
      if e.run == run && e.deferredStop != "" then e.deferredStop
      else if e.run == run && e.status.Failed? then e.status.code
      else StopOf(events[..|events| - 1], run)
  }

  /** The running round's counters, reason to stop and located, filtered IDs are those of its events. */
  ghost predicate Tells(w: World)
  {
    && (forall i :: 0 <= i < |w.events| ==> w.events[i].run < w.runs)
    && (w.round.Some? ==> RoundTells(w.round.value, w.events) && w.round.value.run < w.runs)
  }

  ghost predicate RoundTells(r: Round, events: seq<Event>)
  {
    && r.located == Probes(events, r.run, Locate) && r.scanned == Probes(events, r.run, Scan)
    && r.requests == r.located + r.scanned && r.stop == StopOf(events, r.run)
    && forall id :: id in r.filtered <==> Filtered(events, id, r.run)
  }

  lemma {:induction false} NothingYet(events: seq<Event>, run: nat)
    requires forall i :: 0 <= i < |events| ==> events[i].run != run
    ensures Probes(events, run, Locate) == Probes(events, run, Scan) == 0 && StopOf(events, run) == ""
  {
    if events != [] {
      NothingYet(events[..|events| - 1], run);
    }
  }

  lemma FilteredNext(events: seq<Event>, e: Event, id: int, run: nat)
    ensures Filtered(events + [e], id, run) <==> Filtered(events, id, run) || FilteredIn(e, id, run)
  {
    var more := events + [e];
    if Filtered(events, id, run) {
      var i :| 0 <= i < |events| && FilteredIn(events[i], id, run);
      assert more[i] == events[i];
    }
    assert more[|events|] == e;
  }

  lemma ProbeTells(w: World, r: Round, probe: int, phase: Phase, reply: Reply)
    requires Tells(w) && Tidy(w) && w.round == Some(r) && r.stop == ""
    ensures Tells(Recorded(w, r, probe, phase, reply))
  {
    hide Located, Settled, Saved, Seen;
    var w' := Recorded(w, r, probe, phase, reply);
    var e := w'.events[|w.events|];
    assert w'.events[..|w.events|] == w.events;
    forall id ensures id in w'.round.value.filtered <==> Filtered(w'.events, id, r.run) {
      FilteredNext(w.events, e, id, r.run);
    }
  }

  lemma StepTells(w: World, a: Action)
    requires Tells(w) && Tidy(w)
    ensures Tells(Step(w, a))
  {
    hide Recorded, Validated, RoundTells;
    if AsksNow(w, a) {
      var plan := PlanProbe(w.round.value, a.reply.now);
      ProbeTells(w, w.round.value, plan.id, plan.phase, a.reply);
    } else if a.Begin? && w.round.None? && !w.orphan && Validated(w.cursor, a.startId).Ok? {
      NothingYet(w.events, w.runs);
      FirstTells(Step(w, a).round.value, w.events);
    }
  }

  lemma FirstTells(r: Round, events: seq<Event>)
    requires r.located == r.scanned == r.requests == 0 && r.stop == "" && r.filtered == []
    requires forall i :: 0 <= i < |events| ==> events[i].run < r.run
    requires Probes(events, r.run, Locate) == Probes(events, r.run, Scan) == 0 && StopOf(events, r.run) == ""
    ensures RoundTells(r, events)
  {
  }

  lemma {:induction false} RunTells(w: World, actions: seq<Action>)
    requires Tells(w) && Tidy(w)
    ensures Tells(Run(w, actions))
    decreases |actions|
  {
    if actions != [] {
      StepTells(w, actions[0]);
      RunTells(Step(w, actions[0]), actions[1..]);
    }
  }

  // ---- When a round goes on, and with what ----

  /** What the loop does next, as the committed events of its round determine it: it stops when its
      requests are used up or a probe has given a reason. Twelve probes may locate: the stored upper end
      first, then the middle of the bracket, or a step beyond its lower end. Then it scans. */
  lemma TurnExactly(w: World, before: seq<Action>, reply: Reply)
    requires Fresh(w) && Tidy(w) && Run(w, before).round.Some?
    ensures var m := Run(w, before);
      var r := m.round.value;
      var search, located, scanned := r.state.search, Probes(m.events, r.run, Locate), Probes(m.events, r.run, Scan);
      && (located + scanned >= r.budget || StopOf(m.events, r.run) != "" ==>
          Step(m, Iterate(reply)) == m.(round := None))
      && (located + scanned < r.budget && StopOf(m.events, r.run) == "" ==>
          if (r.state.phase.Locate? && located < 12
              && r.revalidate.None? && search.upper.None? && search.lower == MAX_ID)
             || (r.state.phase.Locate? && located >= 12 && Ids(r.state.pending) == {})
          then Step(m, Iterate(reply)) == m.(round := None)
          else if r.state.phase.Locate? && located < 12 then
            var id := if r.revalidate.Some? then r.revalidate.value
                      else if search.upper.Some? then (search.lower + search.upper.value) / 2
                      else if MAX_ID < search.lower + search.step then MAX_ID else search.lower + search.step;
            AsksNow(m, Iterate(reply)) && PlanProbe(r, reply.now) == Ask(id, Locate)
          else PlanProbe(r, reply.now) == PlanScan(r, reply.now) && r.scanned == scanned)
  {
    hide Good, Recorded;
    var m := Run(w, before);
    RunGood(w, before);
    RunTells(w, before);
    StoredSearch(m);
    PendingEmpty(m);
  }

  lemma PendingEmpty(w: World)
    requires Inv(w) && w.cursor.strategy.Some?
    ensures var s := w.cursor.strategy.value; s.pending == [] <==> Ids(s.pending) == {}
  {
    var s := w.cursor.strategy.value;
    if s.pending != [] {
      CanonicalOrder(s.pending, 0, 0);
      InIds(s.pending, 0, s.pending[0].lower);
    }
  }

  // ---- What a probe does to the queue ----

  lemma {:induction false} AllFinishedIds(s: State, ids: seq<int>)
    requires Canonical(s.pending)
    ensures var s' := AllFinished(s, ids);
      Canonical(s'.pending) && forall id :: id in Ids(s'.pending) <==> id in Ids(s.pending) && id !in ids
    decreases |ids|
  {
    if ids != [] {
      RemovedFacts(s.pending, ids[0]);
      AllFinishedIds(Finished(s, ids[0]), ids[1..]);
    }
  }

  /** Reached by the search since the last boundary. */
  predicate Passed(s: State, s': State, id: int)
  {
    s.frontier < id <= s'.frontier
  }

  lemma LocatedQueue(s: State, last: Option<int>, events: seq<Event>, probe: int, status: Status)
    requires Good(s, last, events) && s.phase.Locate? && Askable(s.search, probe)
    ensures var s' := Located(s, probe, status);
      && Canonical(s'.pending)
      && (forall id :: id in Ids(s.pending) || Passed(s, s', id) ==> id in Ids(s'.pending))
      && (s'.frontier == s.frontier ==> s'.pending == s.pending)
      && (s'.phase.Locate? ==> s'.frontier == s.frontier)
  {
    hide Ids, Sorted, Coalesced;
    var s' := Located(s, probe, status);
    LocatedGood(s, last, events, probe, status);
    if s'.frontier > s.frontier {
      var added := Range(s.frontier + 1, s'.frontier);
      IdsAppend(s.pending, added);
      CanonicalIsWellFormed(s.pending);
      MergedFacts(s.pending + [added]);
    }
  }

  /** A scan takes its ID from the queue exactly if it got the report and no transport stop. A locate probe
      leaves the queue alone until it finds the boundary: then everything up to it is queued, except the
      reports located in this round that a known value excludes. */
  lemma QueueExactly(w: World, before: seq<Action>, a: Action)
    requires Fresh(w) && Tidy(w) && AsksNow(Run(w, before), a)
    ensures var m := Run(w, before);
      var s, s', o := m.round.value.state, Step(m, a).cursor.strategy, a.reply.outcome;
      var plan := PlanProbe(m.round.value, a.reply.now);
      var e := Event(m.round.value.run, plan.id, plan.phase, o.status, o.deferredStop,
                     plan.phase.Locate? && s'.Some? && s'.value.phase.Scan?);
      && s'.Some? && Step(m, a).events == m.events + [e]
      && (plan.phase.Scan? ==>
          Ids(s'.value.pending)
          == if o.status.Report? && o.deferredStop == "" then Ids(s.pending) - {plan.id} else Ids(s.pending))
      && (plan.phase.Locate? && !e.boundary ==> Ids(s'.value.pending) == Ids(s.pending))
      && (e.boundary ==> forall id ::
            var excluded := o.deferredStop == "" && Filtered(m.events + [e], id, e.run);
            && (excluded ==> id !in Ids(s'.value.pending))
            && (!excluded && (id in Ids(s.pending) || Passed(s, s'.value, id)) ==> id in Ids(s'.value.pending)))
  {
    hide Good, Settled, Located, Noted, Filtered;
    var m := Run(w, before);
    RunGood(w, before);
    RunTells(w, before);
    var r := m.round.value;
    var plan := PlanProbe(r, a.reply.now);
    if plan.phase.Scan? {
      ScanQueue(m, r, plan.id, a.reply);
    } else {
      StoredSearch(m);
      PlanLocateFacts(r, m.cursor.lastSuccess);
      LocateQueue(m, r, plan.id, a.reply);
    }
  }

  lemma ScanQueue(w: World, r: Round, probe: int, reply: Reply)
    requires Inv(w) && Tidy(w) && w.round == Some(r)
    ensures var s', o := Recorded(w, r, probe, Scan, reply).round.value.state, reply.outcome;
      Ids(s'.pending)
      == if o.status.Report? && o.deferredStop == "" then Ids(r.state.pending) - {probe} else Ids(r.state.pending)
    ensures var w' := Recorded(w, r, probe, Scan, reply);
      w'.events == w.events + [Event(r.run, probe, Scan, reply.outcome.status, reply.outcome.deferredStop, false)]
  {
    RemovedFacts(r.state.pending, probe);
  }

  lemma LocateQueue(w: World, r: Round, probe: int, reply: Reply)
    requires Inv(w) && Tidy(w) && Tells(w) && w.round == Some(r) && r.stop == ""
    requires r.state.phase.Locate? && Askable(r.state.search, probe)
    ensures var w', o := Recorded(w, r, probe, Locate, reply), reply.outcome;
      var s, s' := r.state, w'.round.value.state;
      var e := Event(r.run, probe, Locate, o.status, o.deferredStop, s'.phase.Scan?);
      && w'.events == w.events + [e]
      && (!e.boundary ==> Ids(s'.pending) == Ids(s.pending))
      && (e.boundary ==> forall id ::
            var excluded := o.deferredStop == "" && Filtered(w.events + [e], id, r.run);
            && (excluded ==> id !in Ids(s'.pending))
            && (!excluded && (id in Ids(s.pending) || Passed(s, s', id)) ==> id in Ids(s'.pending)))
  {
    var o := reply.outcome;
    var found, filtered := Located(r.state, probe, o.status), Noted(r.filtered, Locate, probe, o);
    LocatedQueue(r.state, w.cursor.lastSuccess, w.events, probe, o.status);
    LocatedGood(r.state, w.cursor.lastSuccess, w.events, probe, o.status);
    LocateLeaves(w, r, probe, reply);
    AllFinishedIds(found, filtered);
    ProbeTells(w, r, probe, Locate, reply);
  }

  // ---- The last report ----

  /** The highest ID that was reported, or known at first. */
  ghost predicate Highest(last: Option<int>, known: Option<int>, events: seq<Event>)
  {
    match last
    case None => known.None? && forall i :: 0 <= i < |events| ==> !events[i].status.Report?
    case Some(id) =>
      && (known.Some? ==> known.value <= id)
      && (forall i :: 0 <= i < |events| && events[i].status.Report? ==> events[i].probe <= id)
      && (known == last || exists i :: 0 <= i < |events| && events[i].status.Report? && events[i].probe == id)
  }

  lemma HighestNext(last: Option<int>, known: Option<int>, events: seq<Event>, e: Event)
    requires Highest(last, known, events)
    ensures Highest(Seen(last, e.probe, e.status), known, events + [e])
  {
    var more := events + [e];
    assert more[|events|] == e;
    if last.Some? && known != last {
      var i :| 0 <= i < |events| && events[i].status.Report? && events[i].probe == last.value;
      assert more[i] == events[i];
    }
  }

  lemma {:induction false} LastReportIsHighest(w: World, actions: seq<Action>, known: Option<int>)
    requires Tidy(w) && Highest(w.cursor.lastSuccess, known, w.events)
    ensures Highest(Run(w, actions).cursor.lastSuccess, known, Run(w, actions).events)
    decreases |actions|
  {
    hide Highest, Settled, Located, Validated, Seen, Noted;
    if actions != [] {
      var w' := Step(w, actions[0]);
      if AsksNow(w, actions[0]) {
        HighestNext(w.cursor.lastSuccess, known, w.events, w'.events[|w.events|]);
      }
      LastReportIsHighest(w', actions[1..], known);
    }
  }
}
