/** When the public position moves back. */
module FreshnessMoves {
  import opened Options
  import opened Ranges
  import opened Freshness
  import opened FreshnessScan
  import opened FreshnessSafety
  import opened FreshnessRuns
  import opened FreshnessPosition
  import opened FreshnessSearch
  import opened FreshnessConvergence
  import RangeMinimality

  // A row that still carries a provisional empty ID of the other collector can move back: recovery
  // of a dead worker copies that ID into next_probe_id.

  // ---- One step ----

  /** A running round has published its position, and a stored state comes with one. */
  ghost predicate Public(w: World)
  {
    && (w.round.Some? ==> Published(w) && !w.orphan)
    && (w.cursor.strategy.Some? ==> w.cursor.nextProbe.Some?)
  }

  lemma StepPublic(w: World, a: Action)
    requires Inv(w) && Public(w) && Tidy(w)
    ensures Public(Step(w, a))
  {
    hide Good, Settled, Located, Noted, Validated;
  }

  lemma {:induction false} RunPublic(w: World, actions: seq<Action>)
    requires Inv(w) && Public(w) && Tidy(w)
    ensures Public(Run(w, actions))
    decreases |actions|
  {
    if actions != [] {
      StepGood(w, actions[0]);
      StepPublic(w, actions[0]);
      RunPublic(Step(w, actions[0]), actions[1..]);
    }
  }

  /** Merging the stored ranges again does not move the position. */
  lemma MergedPosition(s: State)
    requires Canonical(s.pending)
    ensures Position(s.(pending := Merged(s.pending))) == Position(s)
  {
    CanonicalIsWellFormed(s.pending);
    MergedFacts(s.pending);
    if s.pending != [] {
      CanonicalOrder(s.pending, 0, 0);
      InIds(s.pending, 0, s.pending[0].lower);
      IdsBounds(Merged(s.pending), s.pending[0].lower);
      IdsBounds(s.pending, Merged(s.pending)[0].lower);
    }
  }

  /** In every reachable state exactly two steps move the position back: a recovery that copies a
      smaller provisional ID, and the first round after a recovery that copied one too large. */
  lemma MovesBackExactly(w: World, before: seq<Action>, a: Action)
    requires Fresh(w) && Tidy(w) && Run(w, before).cursor.strategy.Some?
    ensures var m := Run(w, before);
      var c, c' := m.cursor, Step(m, a).cursor;
      && c.nextProbe.Some? && c'.nextProbe.Some?
      && (c'.nextProbe.value < c.nextProbe.value <==>
          || (a.Recover? && m.orphan && c.provisional.Some? && c.provisional.value < c.nextProbe.value)
          || (a.Begin? && m.round.None? && !m.orphan && Validated(c, a.startId).Ok?
              && Position(c.strategy.value) < c.nextProbe.value))
  {
    RunGood(w, before);
    RunPublic(w, before);
    StepMoves(Run(w, before), a);
  }

  lemma StepMoves(w: World, a: Action)
    requires Inv(w) && Public(w) && Tidy(w) && w.cursor.strategy.Some?
    ensures var c, c' := w.cursor, Step(w, a).cursor;
      && c.nextProbe.Some? && c'.nextProbe.Some?
      && (c'.nextProbe.value < c.nextProbe.value <==>
          || (a.Recover? && w.orphan && c.provisional.Some? && c.provisional.value < c.nextProbe.value)
          || (a.Begin? && w.round.None? && !w.orphan && Validated(c, a.startId).Ok?
              && Position(c.strategy.value) < c.nextProbe.value))
  {
    hide Settled, Located, Noted, Acceptable;
    StepGood(w, a);
    var s := w.cursor.strategy.value;
    if a.Begin? {
      MergedPosition(s);
    } else if a.Iterate? && w.round.Some? {
      PositionBelowPending(s);
      StepKeepsFloor(w, a, Position(s));
      AtLeastPosition(Step(w, a).cursor.strategy.value, Step(w, a).cursor.lastSuccess, Position(s));
    }
  }

  /** A row with the provisional ID 5 behind the position 6: recovery moves it back to 5. */
  lemma MovesBackExample()
    ensures var w := World(Cursor(Some(6), Some(6), Some(5), None), [], 0, None, false);
      var w1 := Step(w, Begin(None, 1));
      var w2 := Step(w1, Crash);
      w1.cursor.nextProbe == Some(6) && Step(w2, Recover).cursor.nextProbe == Some(5)
  {
    var rs := [Range(6, 6)];
    assert Sorted(rs) == rs && Merged(rs) == rs;
  }

  /** With the provisional ID 8 it is the next round that moves the position, from 8 back to 6. */
  lemma NextRoundMovesBackExample()
    ensures var w := World(Cursor(Some(6), Some(6), Some(8), None), [], 0, None, false);
      var w3 := Step(Step(Step(w, Begin(None, 1)), Crash), Recover);
      w3.cursor.nextProbe == Some(8) && Step(w3, Begin(None, 1)).cursor.nextProbe == Some(6)
  {
    var rs := [Range(6, 6)];
    assert Sorted(rs) == rs && Merged(rs) == rs;
  }

  // ---- Whole runs ----

  predicate Forward(m: World, m': World)
  {
    m.cursor.strategy.Some? ==>
      m.cursor.nextProbe.Some? && m'.cursor.nextProbe.Some? && m.cursor.nextProbe.value <= m'.cursor.nextProbe.value
  }

  /** From the first round on the position never moves back, however the run goes on. */
  ghost predicate NeverBack(w: World)
    requires Tidy(w)
  {
    forall before: seq<Action>, after: seq<Action> :: Forward(Run(w, before), Run(Run(w, before), after))
  }

  /** A provisional ID at a first position that no round can leave: no ID above the last report can be
      asked, or none above the position. */
  predicate Immovable(cursor: Cursor)
  {
    var v := Validated(cursor, None);
    && cursor.provisional.Some? && v.Ok? && cursor.provisional.value == v.value.historyStart
    && (v.value.frontier == MAX_ID || v.value.historyStart == MAX_ID)
  }

  /** The exact condition, over all runs: the row carries no provisional ID that could be recovered
      after a first round, or one that makes no difference. */
  lemma NeverBackExactly(w: World)
    requires Fresh(w)
    ensures Tidy(w)
    ensures NeverBack(w) <==>
            w.orphan || w.cursor.provisional.None? || Validated(w.cursor, None).Err? || Immovable(w.cursor)
  {
    if w.orphan || w.cursor.provisional.None? {
      forall before: seq<Action>, after: seq<Action> ensures Forward(Run(w, before), Run(Run(w, before), after)) {
        if Run(w, before).cursor.strategy.Some? {
          PositionNeverDecreases(w, before, after);
        }
      }
    } else if Validated(w.cursor, None).Err? || Immovable(w.cursor) {
      forall before: seq<Action>, after: seq<Action> ensures Forward(Run(w, before), Run(Run(w, before), after)) {
        StuckForward(w, before, after);
      }
    } else {
      var before, after := MovingRun(w);
      assert !Forward(Run(w, before), Run(Run(w, before), after));
    }
  }

  // ---- Rows that cannot move ----

  /** The search is at the largest ID, or nothing is pending and there is no room for more. */
  predicate Stalled(s: State)
  {
    || (s.phase.Locate? && s.frontier == s.search.lower == MAX_ID && s.search.upper.None?)
    || (s.pending == [] && s.frontier == MAX_ID - 1)
  }

  ghost predicate Stuck(w: World, row: Cursor)
  {
    && Inv(w) && Tidy(w)
    && (w.cursor.strategy.None? ==> w.cursor == row && w.round.None? && !w.orphan)
    && (w.cursor.strategy.Some? ==>
        var s := w.cursor.strategy.value;
        && Immovable(row) && Stalled(s) && row.provisional == Some(Position(s))
        && w.cursor.nextProbe == row.provisional
        && (w.cursor.provisional.Some? ==> w.cursor.provisional == row.provisional)
        && (w.round.Some? && s.frontier == MAX_ID ==> w.round.value.located == 0))
  }

  lemma FirstPosition(cursor: Cursor, startId: Option<int>)
    requires cursor.strategy.None? && Validated(cursor, startId).Ok?
    ensures Validated(cursor, startId) == Validated(cursor, None)
    ensures Position(Validated(cursor, None).value) == Validated(cursor, None).value.historyStart
  {
    var v := Validated(cursor, None).value;
    if v.historyStart <= v.frontier {
      var rs := [Range(v.historyStart, v.frontier)];
      assert Ids(rs) == Span(rs[0]) && Canonical(rs);
      MergedPosition(v.(pending := rs));
    }
  }

  lemma ProbeStuck(w: World, r: Round, reply: Reply, row: Cursor)
    requires Stuck(w, row) && w.round == Some(r) && PlanProbe(r, reply.now).Ask?
    ensures var plan := PlanProbe(r, reply.now);
      var s' := Recorded(w, r, plan.id, plan.phase, reply).round.value.state;
      s'.pending == [] && s'.frontier == MAX_ID - 1 == r.state.frontier
  {
    hide Settled, Noted;
    var plan := PlanProbe(r, reply.now);
    assert plan.phase.Locate?;
    StoredSearch(w);
    LocateLeaves(w, r, plan.id, reply);
    SettledNothing(w, r, plan.id, reply);
  }

  lemma SettledNothing(w: World, r: Round, probe: int, reply: Reply)
    requires Tidy(w) && w.round == Some(r)
    requires Located(r.state, probe, reply.outcome.status).pending == []
    ensures Recorded(w, r, probe, Locate, reply).round.value.state.pending == []
  {
    hide Located;
    LeavesNothing(Located(r.state, probe, reply.outcome.status), Noted(r.filtered, Locate, probe, reply.outcome));
  }

  lemma {:induction false} LeavesNothing(s: State, ids: seq<int>)
    requires s.pending == []
    ensures AllFinished(s, ids).pending == []
    decreases |ids|
  {
    if ids != [] {
      LeavesNothing(Finished(s, ids[0]), ids[1..]);
    }
  }

  lemma StepStuck(w: World, a: Action, row: Cursor)
    requires Stuck(w, row) && row.strategy.None? && (Validated(row, None).Err? || Immovable(row))
    ensures Stuck(Step(w, a), row)
  {
    hide Good, Settled, Located, Noted, Acceptable;
    StepGood(w, a);
    match a
    case Begin(startId, budget) =>
      if w.round.None? && !w.orphan && Validated(w.cursor, startId).Ok? {
        if w.cursor.strategy.None? {
          FirstPosition(row, startId);
        } else {
          StoredRanges(w);
          MergedPosition(w.cursor.strategy.value);
        }
      }
    case Iterate(reply) =>
      if w.round.Some? && PlanProbe(w.round.value, reply.now).Ask? {
        ProbeStuck(w, w.round.value, reply, row);
      }
    case _ =>
  }

  lemma StoredRanges(w: World)
    requires Inv(w) && w.cursor.strategy.Some?
    ensures Canonical(w.cursor.strategy.value.pending)
  {
  }

  lemma {:induction false} RunStuck(w: World, actions: seq<Action>, row: Cursor)
    requires Stuck(w, row) && row.strategy.None? && (Validated(row, None).Err? || Immovable(row))
    ensures Stuck(Run(w, actions), row)
    decreases |actions|
  {
    if actions != [] {
      StepStuck(w, actions[0], row);
      RunStuck(Step(w, actions[0]), actions[1..], row);
    }
  }

  lemma StuckForward(w: World, before: seq<Action>, after: seq<Action>)
    requires Fresh(w) && Tidy(w) && !w.orphan && (Validated(w.cursor, None).Err? || Immovable(w.cursor))
    ensures Forward(Run(w, before), Run(Run(w, before), after))
  {
    hide Validated, Immovable, Stalled, Position;
    var m := Run(w, before);
    RunStuck(w, before, w.cursor);
    RunStuck(m, after, w.cursor);
    if m.cursor.strategy.Some? {
      FrontierNeverDecreases(m, after);
    }
  }

  // ---- Rows that do move ----

  /** The running round finds the boundary `n`. */
  lemma {:induction false} Close(w: World, n: int) returns (actions: seq<Action>)
    requires Inv(w) && Tidy(w) && Ready(w, n) && Encloses(w, n) && n < MAX_ID && Untroubled(w)
    requires w.round.value.located + Potential(w, n) <= LOCATE_BUDGET
    requires w.round.value.requests + Potential(w, n) < w.round.value.budget
    ensures var w' := Run(w, actions);
      && Untroubled(w') && w'.round.value.state.phase.Scan? && SameRow(w, w')
      && w'.round.value.state.frontier == n
      && w'.round.value.requests <= w.round.value.requests + Potential(w, n)
    decreases Potential(w, n)
  {
    var r := w.round.value;
    if r.state.phase.Scan? {
      actions := [];
    } else {
      StoredSearch(w);
      assert Potential(w, n) > 0;
      var id := PlanLocate(r).id;
      var a := Iterate(Reply(0, Outcome(if id <= n then Report(false) else Empty, ""), 0));
      CloseStep(w, r, a, n);
      var rest := Close(Step(w, a), n);
      actions := [a] + rest;
      assert actions[1..] == rest;
    }
  }

  lemma CloseStep(w: World, r: Round, a: Action, n: int)
    requires Inv(w) && Tidy(w) && Ready(w, n) && Encloses(w, n) && n < MAX_ID && Untroubled(w)
    requires w.round == Some(r) && r.state.phase.Locate?
    requires 0 < Potential(w, n) <= LOCATE_BUDGET - r.located && r.requests < r.budget
    requires a == Iterate(Reply(0, Outcome(if PlanLocate(r).Ask? && PlanLocate(r).id <= n then Report(false) else Empty,
                                           ""), 0))
    ensures var w' := Step(w, a);
      && Inv(w') && Ready(w', n) && Encloses(w', n) && Untroubled(w') && SameRow(w, w')
      && Potential(w', n) < Potential(w, n)
      && w'.round.value.located == r.located + 1 && w'.round.value.requests == r.requests + 1
  {
    hide Good;
    StepGood(w, a);
    StoredSearch(w);
    StepProgress(w, a, n);
  }

  /** A running round without delays, filtered reports or a reason to stop. */
  predicate Untroubled(w: World)
  {
    && w.round.Some? && !w.orphan && w.cursor.strategy == Some(w.round.value.state)
    && w.round.value.stop == "" && w.round.value.filtered == [] && w.round.value.state.deferred == []
    && w.cursor.nextProbe == Some(Position(w.round.value.state))
  }

  predicate SameRow(w: World, w': World)
  {
    && w'.cursor.provisional == w.cursor.provisional
    && w.cursor.strategy.Some? && w'.cursor.strategy.Some? && w.round.Some? && w'.round.Some?
    && w'.cursor.strategy.value.historyStart == w.cursor.strategy.value.historyStart
    && w'.round.value.budget == w.round.value.budget
  }

  /** The running round asks everything that is pending, and all of it is a report. */
  lemma {:induction false} Drain(w: World) returns (actions: seq<Action>)
    requires Inv(w) && Tidy(w) && Untroubled(w) && w.round.value.state.phase.Scan?
    requires w.round.value.requests + |Ids(w.round.value.state.pending)| <= w.round.value.budget
    ensures var w' := Run(w, actions);
      && Untroubled(w') && SameRow(w, w') && w'.round.value.state.pending == []
      && w'.round.value.state.frontier == w.round.value.state.frontier
    decreases |Ids(w.round.value.state.pending)|
  {
    var r := w.round.value;
    if r.state.pending == [] {
      actions := [];
    } else {
      var a := Iterate(Reply(0, Outcome(Report(false), ""), 0));
      StoredRanges(w);
      InIds(r.state.pending, 0, r.state.pending[0].lower);
      DrainStep(w, r, a);
      var rest := Drain(Step(w, a));
      actions := [a] + rest;
      assert actions[1..] == rest;
    }
  }

  lemma DrainStep(w: World, r: Round, a: Action)
    requires Inv(w) && Tidy(w) && Untroubled(w) && w.round == Some(r) && r.state.phase.Scan?
    requires r.state.pending != [] && r.requests < r.budget
    requires a == Iterate(Reply(0, Outcome(Report(false), ""), 0))
    ensures var w' := Step(w, a);
      && Inv(w') && Untroubled(w') && SameRow(w, w') && w'.round.value.requests == r.requests + 1
      && w'.round.value.state.phase.Scan? && w'.round.value.state.frontier == r.state.frontier
      && |Ids(w'.round.value.state.pending)| < |Ids(r.state.pending)|
  {
    hide Good, PlanScan, Removed, Ids;
    StepGood(w, a);
    StoredRanges(w);
    ScanAsks(r);
  }

  /** Without delays a scan asks one of the pending IDs, and its report leaves fewer. */
  lemma ScanAsks(r: Round)
    requires Canonical(r.state.pending) && r.state.pending != [] && r.state.deferred == []
    ensures PlanScan(r, 0).Ask? && PlanScan(r, 0).phase.Scan?
    ensures |Ids(Removed(r.state.pending, PlanScan(r, 0).id))| < |Ids(r.state.pending)|
  {
    ScanRule(r, 0);
    InIds(r.state.pending, 0, r.state.pending[0].lower);
    assert Eligible(r.state.deferred, 0, r.state.pending[0].lower);
    RemovedFacts(r.state.pending, PlanScan(r, 0).id);
  }

  lemma FirstRound(w: World, budget: nat)
    requires Fresh(w) && Tidy(w) && !w.orphan && Validated(w.cursor, None).Ok?
    ensures var w1 := Run(w, [Begin(None, budget)]); var v := Validated(w.cursor, None).value;
      && w1 == Opened(w, None, budget) && Inv(w1) && Untroubled(w1) && w1.cursor.provisional == w.cursor.provisional
      && w1.round.value.located == w1.round.value.requests == 0 && w1.round.value.budget == budget
      && w1.round.value.state == v && Position(v) == v.historyStart && |v.pending| <= MAX_RANGES
  {
    StepGood(w, Begin(None, budget));
    FirstPosition(w.cursor, None);
    LoadedGood(w, None);
    assert [Begin(None, budget)][1..] == [];
  }

  lemma ThenDies(w: World)
    requires Inv(w) && Tidy(w) && w.round.Some?
    ensures Run(w, [Crash, Recover]) == w.(round := None, orphan := false, cursor := Recovered(w.cursor))
  {
    assert [Crash, Recover][1..] == [Recover] && [Recover][1..] == [];
  }

  /** The first round and the rest of the run on which the position moves back. */
  lemma MovingRun(w: World) returns (before: seq<Action>, after: seq<Action>)
    requires Fresh(w) && Tidy(w) && !w.orphan && w.cursor.provisional.Some? && Validated(w.cursor, None).Ok?
    requires !Immovable(w.cursor)
    ensures !Forward(Run(w, before), Run(Run(w, before), after))
  {
    hide Good, Settled, Located, Noted, Acceptable;
    var start, p := Validated(w.cursor, None).value.historyStart, w.cursor.provisional.value;
    FirstRound(w, 0);
    var w1 := Run(w, [Begin(None, 0)]);
    ThenDies(w1);
    if p < start {
      before, after := [Begin(None, 0)], [Crash, Recover];
    } else if p > start {
      before, after := [Begin(None, 0)] + [Crash, Recover], [Begin(None, 0)];
      Joined(w, [Begin(None, 0)], [Crash, Recover], 0);
      TooFar(w1, p);
    } else {
      before, after := Progress(w);
    }
  }

  lemma TooFar(w: World, p: int)
    requires Inv(w) && Tidy(w) && Untroubled(w) && w.cursor.provisional == Some(p)
    requires Position(w.round.value.state) < p && |w.round.value.state.pending| <= MAX_RANGES
    ensures var w3 := w.(round := None, orphan := false, cursor := Recovered(w.cursor));
      !Forward(w3, Run(w3, [Begin(None, 0)]))
  {
    hide Good, Settled, Located, Noted, Acceptable;
    var w3 := w.(round := None, orphan := false, cursor := Recovered(w.cursor));
    SizedIsAccepted(w3, None);
    StoredRanges(w3);
    MergedPosition(w3.cursor.strategy.value);
    assert [Begin(None, 0)][1..] == [];
  }

  /** A first round that finds a boundary and asks everything up to it leaves the first position. */
  lemma Progress(w: World) returns (before: seq<Action>, after: seq<Action>)
    requires Fresh(w) && Tidy(w) && !w.orphan && Validated(w.cursor, None).Ok? && !Immovable(w.cursor)
    requires w.cursor.provisional == Some(Validated(w.cursor, None).value.historyStart)
    ensures !Forward(Run(w, before), Run(Run(w, before), after))
  {
    hide Good, Settled, Located, Noted, Acceptable;
    var v := Validated(w.cursor, None).value;
    var n := Max(v.frontier, v.historyStart);
    var budget: nat := LOCATE_BUDGET + 1 + (n - v.historyStart + 1);
    FirstRound(w, budget);
    var w1 := Run(w, [Begin(None, budget)]);
    Begun(w, n, budget);
    var served := ServeAll(w1, n);
    Joined(w, [Begin(None, budget)], served, 0);
    ThenDies(Run(w1, served));
    before, after := [Begin(None, budget)] + served, [Crash, Recover];
  }

  lemma Begun(w: World, n: int, budget: nat)
    requires Fresh(w) && Tidy(w) && !w.orphan && Validated(w.cursor, None).Ok?
    requires Validated(w.cursor, None).value.frontier <= n <= Validated(w.cursor, None).value.frontier + 1
    ensures var w1 := Opened(w, None, budget);
      Ready(w1, n) && Encloses(w1, n) && Potential(w1, n) <= LOCATE_BUDGET
  {
    FewProbes(n - Validated(w.cursor, None).value.frontier);
  }

  lemma ServeAll(w: World, n: int) returns (actions: seq<Action>)
    requires Inv(w) && Tidy(w) && Ready(w, n) && Encloses(w, n) && n < MAX_ID && Untroubled(w)
    requires w.round.value.located == w.round.value.requests == 0 && Potential(w, n) <= LOCATE_BUDGET
    requires w.round.value.state.historyStart <= n + 1
    requires w.round.value.budget == LOCATE_BUDGET + 1 + (n - w.round.value.state.historyStart + 1)
    ensures var w' := Run(w, actions);
      Inv(w') && Untroubled(w') && SameRow(w, w') && w'.cursor.nextProbe == Some(n + 1)
  {
    hide Good, Settled, Located, Noted, Acceptable, Potential, Ready;
    var close := Close(w, n);
    RunGood(w, close);
    var m := Run(w, close);
    StoredSize(m);
    var drain := Drain(m);
    RunGood(m, drain);
    Joined(w, close, drain, 0);
    actions := close + drain;
  }

  lemma FewProbes(d: nat)
    requires d <= 1
    ensures Gallop(d, 1) <= LOCATE_BUDGET
  {
  }

  lemma StoredSize(w: World)
    requires Inv(w) && w.cursor.strategy.Some?
    ensures var s := w.cursor.strategy.value; |Ids(s.pending)| <= s.frontier - s.historyStart + 1
  {
    PendingSize(w.cursor.strategy.value, w.cursor.lastSuccess);
  }

  lemma PendingSize(s: State, last: Option<int>)
    requires Sound(s, last)
    ensures |Ids(s.pending)| <= s.frontier - s.historyStart + 1
  {
    RangeMinimality.SubsetSize(Ids(s.pending), Span(Range(s.historyStart, s.frontier)));
    SpanSize(s.historyStart, s.frontier);
  }
}
