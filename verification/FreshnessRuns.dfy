/** Runs of the latest-first collector. */
module FreshnessRuns {
  // Any sequence of rounds, probes and crashes, from a cursor that has no stored strategy yet.
  import opened Options
  import opened Ranges
  import opened Freshness
  import opened FreshnessScan
  import opened FreshnessSafety

  function Run(w: World, actions: seq<Action>): (w': World)
    requires Tidy(w)
    ensures Tidy(w')
    decreases |actions|
  {
    if actions == [] then w
    else Run(Step(w, actions[0]), actions[1..])
  }

  /** A cursor that this collector has not worked on yet. The other collector may have left it a
      position, a provisional empty ID and a dead worker. */
  predicate Fresh(w: World)
  {
    w.cursor.strategy.None? && w.round.None? && w.events == []
  }

  // ---- One recorded probe ----

  lemma ScanRecordedGood(w: World, r: Round, probe: int, reply: Reply)
    requires Inv(w) && w.round == Some(r) && probe in Ids(r.state.pending)
    ensures Tidy(w) && Inv(Recorded(w, r, probe, Scan, reply))
  {
    var s, o, last := r.state, reply.outcome, w.cursor.lastSuccess;
    var w' := Recorded(w, r, probe, Scan, reply);
    var e := w'.events[|w.events|];
    EventsGrow(w.events, e);
    LastEvent(w.events, e, probe);
    var last' := Seen(last, probe, o.status);
    assert Good(s, last', w'.events);
    if o.status.Report? && o.deferredStop == "" {
      FinishedGood(s, last', w'.events, probe);
    } else if o.status.Empty? {
      PostponedGood(s, last', w'.events, probe, reply.recordedAt + RETRY_MS);
    }
  }

  lemma NotedFiltered(events: seq<Event>, e: Event, r: Round, o: Outcome)
    requires e.run == r.run && e.phase.Locate? && e.status == o.status && e.deferredStop == o.deferredStop
    requires forall i :: 0 <= i < |r.filtered| ==> Filtered(events, r.filtered[i], r.run)
    ensures var f := Noted(r.filtered, Locate, e.probe, o);
      forall i :: 0 <= i < |f| ==> Filtered(events + [e], f[i], r.run)
  {
    EventsGrow(events, e);
    LastEvent(events, e, e.probe);
  }

  lemma LocateRecordedGood(w: World, r: Round, probe: int, reply: Reply)
    requires Inv(w) && w.round == Some(r) && r.state.phase.Locate? && Askable(r.state.search, probe)
    ensures Tidy(w) && Inv(Recorded(w, r, probe, Locate, reply))
  {
    var s, o := r.state, reply.outcome;
    var w' := Recorded(w, r, probe, Locate, reply);
    var e := w'.events[|w.events|];
    var filtered := Noted(r.filtered, Locate, probe, o);
    var last' := Seen(w.cursor.lastSuccess, probe, o.status);
    var found := Located(s, probe, o.status);
    EventsGrow(w.events, e);
    LastEvent(w.events, e, probe);
    NotedFiltered(w.events, e, r, o);
    LocatedGood(s, w.cursor.lastSuccess, w.events, probe, o.status);
    assert Good(found, last', w'.events);
    if found.phase.Scan? && o.deferredStop == "" {
      assert Committed(w'.events, r.run);
      forall i | 0 <= i < |filtered| ensures Resolved(w'.events, filtered[i]) {
        assert Filtered(w'.events, filtered[i], r.run);
      }
      AllFinishedGood(found, last', w'.events, filtered);
    }
  }

  lemma StepGood(w: World, a: Action)
    requires Inv(w)
    ensures Tidy(w) && Inv(Step(w, a)) && Tidy(Step(w, a))
  {
    match a
    case Begin(startId, budget) =>
      if w.round.None? && !w.orphan && Validated(w.cursor, startId).Ok? {
        LoadedGood(w, startId);
      }
    case Iterate(reply) =>
      if w.round.Some? {
        var r := w.round.value;
        var plan := PlanProbe(r, reply.now);
        if r.requests < r.budget && r.stop == "" && plan.Ask? {
          if plan.phase.Locate? {
            PlanLocateFacts(r, w.cursor.lastSuccess);
            LocateRecordedGood(w, r, plan.id, reply);
          } else {
            ScanRule(r, reply.now);
            ScanRecordedGood(w, r, plan.id, reply);
          }
        }
      }
    case _ =>
  }

  lemma {:induction false} RunGood(w: World, actions: seq<Action>)
    requires Inv(w)
    ensures Tidy(w) && Inv(Run(w, actions))
    decreases |actions|
  {
    if actions != [] {
      StepGood(w, actions[0]);
      RunGood(Step(w, actions[0]), actions[1..]);
    }
  }

  /** No unresolved ID is forgotten: after any run every ID between the start of
      the history and the frontier is pending or resolved by committed events. */
  lemma NothingForgotten(w: World, actions: seq<Action>, id: int)
    requires Fresh(w)
    requires var s := Run(w, actions).cursor.strategy; s.Some? && s.value.historyStart <= id <= s.value.frontier
    ensures var w' := Run(w, actions);
      id in Ids(w'.cursor.strategy.value.pending) || Resolved(w'.events, id)
  {
    RunGood(w, actions);
  }

  // ---- What a run never takes back ----

  /** Nothing below `floor` is pending, and the frontier is not below it either. */
  ghost predicate AtLeast(s: State, floor: int)
  {
    floor <= s.frontier + 1 && Inside(s.pending, floor, MAX_ID)
  }

  lemma LocatedAtLeast(s: State, last: Option<int>, probe: int, status: Status, floor: int)
    requires Sound(s, last) && s.phase.Locate? && Askable(s.search, probe) && AtLeast(s, floor)
    ensures AtLeast(Located(s, probe, status), floor)
  {
    hide Ids, Merged, Keys;
    var s' := Located(s, probe, status);
    if s'.frontier > s.frontier {
      var added := Range(s.frontier + 1, s'.frontier);
      IdsAppend(s.pending, added);
      CanonicalIsWellFormed(s.pending);
      MergedSound(s.pending + [added], floor, MAX_ID);
    }
  }

  lemma {:induction false} AllFinishedAtLeast(s: State, ids: seq<int>, floor: int)
    requires Canonical(s.pending) && AtLeast(s, floor)
    ensures AtLeast(AllFinished(s, ids), floor)
    decreases |ids|
  {
    if ids != [] {
      RemovedFacts(s.pending, ids[0]);
      AllFinishedAtLeast(Finished(s, ids[0]), ids[1..], floor);
    }
  }

  lemma RecordedAtLeast(w: World, r: Round, plan: Plan, reply: Reply, floor: int)
    requires Inv(w) && w.round == Some(r) && plan.Ask? && AtLeast(r.state, floor)
    requires plan.phase.Locate? ==> r.state.phase.Locate? && Askable(r.state.search, plan.id)
    ensures Tidy(w) && AtLeast(Recorded(w, r, plan.id, plan.phase, reply).round.value.state, floor)
  {
    var o := reply.outcome;
    if plan.phase.Locate? {
      LocatedAtLeast(r.state, w.cursor.lastSuccess, plan.id, o.status, floor);
      assert Canonical(Located(r.state, plan.id, o.status).pending) by {
        LocatedGood(r.state, w.cursor.lastSuccess, w.events, plan.id, o.status);
      }
      AllFinishedAtLeast(Located(r.state, plan.id, o.status), Noted(r.filtered, Locate, plan.id, o), floor);
    } else {
      RemovedFacts(r.state.pending, plan.id);
    }
  }

  lemma StepKeepsFloor(w: World, a: Action, floor: int)
    requires Inv(w) && w.cursor.strategy.Some? && AtLeast(w.cursor.strategy.value, floor)
    ensures Tidy(w) && Step(w, a).cursor.strategy.Some?
    ensures AtLeast(Step(w, a).cursor.strategy.value, floor)
    ensures Step(w, a).cursor.strategy.value.historyStart == w.cursor.strategy.value.historyStart
  {
    StepGood(w, a);
    match a
    case Begin(startId, budget) =>
      CanonicalIsWellFormed(w.cursor.strategy.value.pending);
      MergedSound(w.cursor.strategy.value.pending, floor, MAX_ID);
    case Iterate(reply) =>
      if w.round.Some? {
        var r := w.round.value;
        var plan := PlanProbe(r, reply.now);
        if r.requests < r.budget && r.stop == "" && plan.Ask? {
          if plan.phase.Locate? {
            PlanLocateFacts(r, w.cursor.lastSuccess);
          }
          RecordedAtLeast(w, r, plan, reply, floor);
          SettledKeepsHistory(w, r, plan, reply);
        }
      }
    case _ =>
  }

  lemma SettledKeepsHistory(w: World, r: Round, plan: Plan, reply: Reply)
    requires plan.Ask? && |r.state.deferred| <= MAX_DEFERRED
    ensures Recorded(w, r, plan.id, plan.phase, reply).round.value.state.historyStart == r.state.historyStart
  {
    var o := reply.outcome;
    AllFinishedFields(Located(r.state, plan.id, o.status), Noted(r.filtered, Locate, plan.id, o));
  }

  lemma {:induction false} AllFinishedFields(s: State, ids: seq<int>)
    ensures var s' := AllFinished(s, ids);
      s'.historyStart == s.historyStart && s'.frontier == s.frontier && s'.search == s.search && s'.phase == s.phase
    decreases |ids|
  {
    if ids != [] {
      AllFinishedFields(Finished(s, ids[0]), ids[1..]);
    }
  }

  lemma {:induction false} RunKeepsFloor(w: World, actions: seq<Action>, floor: int)
    requires Inv(w) && w.cursor.strategy.Some? && AtLeast(w.cursor.strategy.value, floor)
    ensures Tidy(w) && Run(w, actions).cursor.strategy.Some?
    ensures AtLeast(Run(w, actions).cursor.strategy.value, floor)
    ensures Run(w, actions).cursor.strategy.value.historyStart == w.cursor.strategy.value.historyStart
    decreases |actions|
  {
    StepGood(w, Crash);
    if actions != [] {
      StepGood(w, actions[0]);
      StepKeepsFloor(w, actions[0], floor);
      RunKeepsFloor(Step(w, actions[0]), actions[1..], floor);
    }
  }

  lemma RecordedKeepsFrontier(w: World, r: Round, plan: Plan, reply: Reply)
    requires Inv(w) && w.round == Some(r) && plan.Ask?
    ensures Tidy(w) && r.state.frontier <= Recorded(w, r, plan.id, plan.phase, reply).round.value.state.frontier
  {
    var o := reply.outcome;
    AllFinishedFields(Located(r.state, plan.id, o.status), Noted(r.filtered, Locate, plan.id, o));
  }

  lemma StepKeepsFrontier(w: World, a: Action)
    requires Inv(w) && w.cursor.strategy.Some?
    ensures Tidy(w) && Step(w, a).cursor.strategy.Some?
    ensures w.cursor.strategy.value.frontier <= Step(w, a).cursor.strategy.value.frontier
    ensures w.events <= Step(w, a).events
  {
    hide Inside, Accounted, Settled, Located;
    if a.Iterate? && w.round.Some? {
      var plan := PlanProbe(w.round.value, a.reply.now);
      if plan.Ask? {
        RecordedKeepsFrontier(w, w.round.value, plan, a.reply);
      }
    }
  }

  /** The frontier never decreases and the start of the history never changes. */
  lemma {:induction false} FrontierNeverDecreases(w: World, actions: seq<Action>)
    requires Inv(w) && w.cursor.strategy.Some?
    ensures Tidy(w) && Run(w, actions).cursor.strategy.Some? && w.events <= Run(w, actions).events
    ensures var s, s' := w.cursor.strategy.value, Run(w, actions).cursor.strategy.value;
      s.frontier <= s'.frontier && s.historyStart == s'.historyStart
    decreases |actions|
  {
    StepGood(w, Crash);
    if actions != [] {
      var floor := w.cursor.strategy.value.historyStart;
      StepGood(w, actions[0]);
      StepKeepsFrontier(w, actions[0]);
      StepKeepsFloor(w, actions[0], floor);
      FrontierNeverDecreases(Step(w, actions[0]), actions[1..]);
    }
  }

  /** An ID that the history has reached stays accounted for at every later moment: it is pending or
      resolved then, and once resolved it remains so. */
  lemma NothingForgottenLater(w: World, before: seq<Action>, after: seq<Action>, id: int)
    requires Fresh(w)
    requires var s := Run(w, before).cursor.strategy; s.Some? && s.value.historyStart <= id <= s.value.frontier
    ensures Tidy(Run(w, before))
    ensures var m, w' := Run(w, before), Run(Run(w, before), after);
      && w'.cursor.strategy.Some? && (id in Ids(w'.cursor.strategy.value.pending) || Resolved(w'.events, id))
      && (Resolved(m.events, id) ==> Resolved(w'.events, id))
  {
    RunGood(w, before);
    var m := Run(w, before);
    FrontierNeverDecreases(m, after);
    RunGood(m, after);
    if Resolved(m.events, id) {
      MoreEvents(m.events, Run(m, after).events, id);
    }
  }

  lemma MoreEvents(events: seq<Event>, more: seq<Event>, id: int)
    requires events <= more && Resolved(events, id)
    ensures Resolved(more, id)
  {
    if i :| 0 <= i < |events| && ScanResolves(events[i], id) {
      assert more[i] == events[i];
    } else {
      var run: nat :| Filtered(events, id, run) && Committed(events, run);
      var i :| 0 <= i < |events| && FilteredIn(events[i], id, run);
      var j :| 0 <= j < |events| && CommitsFrontier(events[j], run);
      assert more[i] == events[i] && more[j] == events[j];
      assert Filtered(more, id, run) && Committed(more, run);
    }
  }

  // ---- Every saved state is accepted by the next round ----

  ghost predicate Sized(w: World)
  {
    match w.round
    case None => w.cursor.strategy.Some? ==> |w.cursor.strategy.value.pending| <= MAX_STATE_RANGES
    case Some(r) =>
      && r.requests <= r.budget <= 64
      && |r.filtered| <= r.located <= r.requests
      && |r.state.pending| <= MAX_RANGES + r.requests
      && (r.state.phase.Locate? && r.located < LOCATE_BUDGET ==> |r.state.pending| <= MAX_RANGES)
  }

  predicate SmallBudget(a: Action)
  {
    a.Begin? ==> a.budget <= 64
  }

  lemma {:induction false} AllFinishedSize(s: State, ids: seq<int>)
    requires Canonical(s.pending)
    ensures |AllFinished(s, ids).pending| <= |s.pending| + |ids|
    decreases |ids|
  {
    if ids != [] {
      RemovedFacts(s.pending, ids[0]);
      AllFinishedSize(Finished(s, ids[0]), ids[1..]);
    }
  }

  lemma RecordedSized(w: World, r: Round, plan: Plan, reply: Reply)
    requires Inv(w) && Sized(w) && w.round == Some(r) && r.requests < r.budget
    requires plan.Ask? && plan == PlanProbe(r, reply.now)
    ensures Tidy(w) && Sized(Recorded(w, r, plan.id, plan.phase, reply))
  {
    hide Ids, Removed, Merged;
    var o := reply.outcome;
    if plan.phase.Locate? {
      var found := Located(r.state, plan.id, o.status);
      var filtered := Noted(r.filtered, Locate, plan.id, o);
      PlanLocateFacts(r, w.cursor.lastSuccess);
      LocatedGood(r.state, w.cursor.lastSuccess, w.events, plan.id, o.status);
      LocatedSize(r.state, plan.id, o.status);
      AllFinishedSize(found, filtered);
      AllFinishedFields(found, filtered);
      var state := Settled(found, filtered, Locate, plan.id, o, reply.recordedAt + RETRY_MS);
      assert |state.pending| <= MAX_RANGES + |filtered|;
      assert state.phase.Locate? ==> state == found;
    } else {
      RemovedFacts(r.state.pending, plan.id);
    }
  }

  lemma LocatedSize(s: State, probe: int, status: Status)
    requires Canonical(s.pending) && |s.pending| <= MAX_RANGES
    ensures |Located(s, probe, status).pending| <= MAX_RANGES
  {
    var s' := Located(s, probe, status);
    if s'.frontier > s.frontier {
      CanonicalIsWellFormed(s.pending);
      MergedFacts(s.pending + [Range(s.frontier + 1, s'.frontier)]);
    }
  }

  lemma StepSized(w: World, a: Action)
    requires Inv(w) && Sized(w) && SmallBudget(a)
    ensures Tidy(w) && Sized(Step(w, a))
  {
    match a
    case Begin(startId, budget) =>
      if w.round.None? && !w.orphan && Validated(w.cursor, startId).Ok? {
        LoadedGood(w, startId);
      }
    case Iterate(reply) =>
      if w.round.Some? {
        var r := w.round.value;
        var plan := PlanProbe(r, reply.now);
        if r.requests < r.budget && r.stop == "" && plan.Ask? {
          RecordedSized(w, r, plan, reply);
        }
      }
    case _ =>
  }

  lemma {:induction false} RunSized(w: World, actions: seq<Action>)
    requires Inv(w) && Sized(w) && forall i :: 0 <= i < |actions| ==> SmallBudget(actions[i])
    ensures Tidy(w) && Sized(Run(w, actions))
    decreases |actions|
  {
    if actions != [] {
      StepGood(w, actions[0]);
      StepSized(w, actions[0]);
      RunSized(Step(w, actions[0]), actions[1..]);
    }
  }

  /** A stored state within these sizes passes validation. */
  lemma SizedIsAccepted(w: World, startId: Option<int>)
    requires Inv(w) && Sized(w) && w.cursor.strategy.Some?
    ensures Validated(w.cursor, startId).Ok?
  {
    var s := w.cursor.strategy.value;
    forall i | 0 <= i < |s.pending|
      ensures s.historyStart <= s.pending[i].lower <= s.pending[i].upper <= s.frontier
    {
      CanonicalOrder(s.pending, i, i);
      InIds(s.pending, i, s.pending[i].lower);
      InIds(s.pending, i, s.pending[i].upper);
    }
  }

  /** With at most 64 requests a round, whatever was saved before the round ended
      or crashed is accepted by the next one. */
  lemma SavedStateIsAccepted(w: World, actions: seq<Action>, startId: Option<int>)
    requires Fresh(w) && forall i :: 0 <= i < |actions| ==> SmallBudget(actions[i])
    requires Run(w, actions).cursor.strategy.Some?
    ensures Validated(Run(w, actions).cursor, startId).Ok?
  {
    RunGood(w, actions);
    RunSized(w, actions);
    SizedIsAccepted(Run(w, actions), startId);
  }
}
