/** The public position of the collector. */
module FreshnessPosition {
  import opened Options
  import opened Ranges
  import opened Freshness
  import opened FreshnessSafety
  import opened FreshnessRuns

  lemma PositionBelowPending(s: State)
    requires Canonical(s.pending) && Inside(s.pending, s.historyStart, s.frontier)
    ensures Position(s) <= s.frontier + 1
    ensures forall id :: id in Ids(s.pending) ==> Position(s) <= id
  {
    forall id | id in Ids(s.pending) ensures Position(s) <= id {
      IdsBounds(s.pending, id);
    }
    if s.pending != [] {
      CanonicalOrder(s.pending, 0, 0);
      InIds(s.pending, 0, s.pending[0].lower);
    }
  }

  // ---- Everything below the position is resolved ----

  /** Everything from the start of the history up to the public position is resolved. */
  ghost predicate Honest(w: World)
  {
    w.cursor.strategy.Some? && w.cursor.nextProbe.Some? ==>
      forall id :: w.cursor.strategy.value.historyStart <= id < w.cursor.nextProbe.value ==> Resolved(w.events, id)
  }

  /** A provisional empty ID above the place where the history would begin. */
  predicate Stale(cursor: Cursor)
  {
    && cursor.provisional.Some? && Validated(cursor, None).Ok?
    && Validated(cursor, None).value.historyStart < cursor.provisional.value
  }

  /** Nothing that a recovery could write is above the position. */
  ghost predicate Guarded(w: World)
  {
    match w.cursor.strategy
    case None => w.orphan || !Stale(w.cursor)
    case Some(s) =>
      && (w.cursor.provisional.Some? ==> w.cursor.provisional.value <= s.historyStart)
      && w.cursor.nextProbe.Some?
      && (w.cursor.nextProbe.value == Position(s) || w.cursor.nextProbe.value <= s.historyStart)
  }

  lemma StepGuarded(w: World, a: Action)
    requires Inv(w) && Guarded(w)
    ensures Tidy(w) && Guarded(Step(w, a))
  {
    StepGood(w, a);
    if a.Iterate? && w.round.Some? && PlanProbe(w.round.value, a.reply.now).Ask? {
      SettledKeepsHistory(w, w.round.value, PlanProbe(w.round.value, a.reply.now), a.reply);
    }
  }

  lemma {:induction false} RunGuarded(w: World, actions: seq<Action>)
    requires Inv(w) && Guarded(w)
    ensures Tidy(w) && Guarded(Run(w, actions))
    decreases |actions|
  {
    if actions != [] {
      StepGood(w, actions[0]);
      StepGuarded(w, actions[0]);
      RunGuarded(Step(w, actions[0]), actions[1..]);
    }
  }

  /** The public position promises that everything before it is resolved. */
  lemma PositionIsHonest(w: World, actions: seq<Action>)
    requires Fresh(w) && (w.orphan || !Stale(w.cursor))
    ensures Tidy(w) && Honest(Run(w, actions))
  {
    RunGood(w, actions);
    RunGuarded(w, actions);
    var w' := Run(w, actions);
    if w'.cursor.strategy.Some? {
      PositionBelowPending(w'.cursor.strategy.value);
    }
  }

  /** From a row with a stale provisional ID a worker that dies at once suffices to break it. */
  lemma StaleRowLies(w: World, budget: nat)
    requires Fresh(w) && !w.orphan && Stale(w.cursor)
    ensures Tidy(w) && !Honest(Run(w, [Begin(None, budget), Crash, Recover]))
  {
    var w1 := Step(w, Begin(None, budget));
    var w2 := Step(w1, Crash);
    var w3 := Step(w2, Recover);
    assert [Begin(None, budget), Crash, Recover][1..] == [Crash, Recover] && [Crash, Recover][1..] == [Recover];
    assert Run(w2, [Recover]) == Run(w3, []) == w3;
    assert Run(w, [Begin(None, budget), Crash, Recover]) == w3;
    var start := w3.cursor.strategy.value.historyStart;
    assert w3.events == [] && start < w3.cursor.nextProbe.value;
    assert !Resolved([], start);
  }

  /** The exact condition: the position is honest after every run iff the row carries no stale
      provisional ID, or carries one that a recovery must consume before the first round. */
  lemma HonestExactly(w: World)
    requires Fresh(w)
    ensures Tidy(w)
    ensures (forall actions: seq<Action> :: Honest(Run(w, actions))) <==> w.orphan || !Stale(w.cursor)
  {
    if w.orphan || !Stale(w.cursor) {
      forall actions: seq<Action> ensures Honest(Run(w, actions)) {
        PositionIsHonest(w, actions);
      }
    } else {
      StaleRowLies(w, 0);
    }
  }

  /** The other collector leaves no provisional ID above its position (see DiscoveryRuns), so its
      rows are not stale. */
  lemma OrderedIsNotStale(cursor: Cursor)
    requires cursor.strategy.None?
    requires cursor.provisional.Some? ==> cursor.nextProbe.Some? && cursor.provisional.value <= cursor.nextProbe.value
    ensures !Stale(cursor)
  {
  }

  // ---- The position never moves back ----

  /** The row's next_probe_id is the position of its stored state. */
  ghost predicate Published(w: World)
  {
    w.cursor.strategy.Some? ==> w.cursor.nextProbe == Some(Position(w.cursor.strategy.value))
  }

  /** No recovery can write a provisional ID once there is a stored state. */
  predicate Clear(w: World)
  {
    w.cursor.provisional.None? || (w.cursor.strategy.None? && w.round.None? && w.orphan)
  }

  lemma {:induction false} RunPublished(w: World, actions: seq<Action>)
    requires Tidy(w) && Published(w) && Clear(w)
    ensures Published(Run(w, actions)) && Clear(Run(w, actions))
    decreases |actions|
  {
    if actions != [] {
      RunPublished(Step(w, actions[0]), actions[1..]);
    }
  }

  lemma AtLeastPosition(s: State, last: Option<int>, floor: int)
    requires Sound(s, last) && AtLeast(s, floor)
    ensures floor <= Position(s)
  {
    if s.pending != [] {
      CanonicalOrder(s.pending, 0, 0);
      InIds(s.pending, 0, s.pending[0].lower);
    }
  }

  /** However a run continues, the public position never moves back and the start
      of the history never changes. */
  lemma PositionNeverDecreases(w: World, before: seq<Action>, after: seq<Action>)
    requires Fresh(w) && (w.orphan || w.cursor.provisional.None?)
    requires Run(w, before).cursor.strategy.Some?
    ensures Tidy(Run(w, before))
    ensures var c, c' := Run(w, before).cursor, Run(Run(w, before), after).cursor;
      && c.nextProbe.Some? && c'.nextProbe.Some? && c.nextProbe.value <= c'.nextProbe.value
      && c'.strategy.Some? && c'.strategy.value.historyStart == c.strategy.value.historyStart
  {
    RunGood(w, before);
    RunPublished(w, before);
    var m := Run(w, before);
    var s := m.cursor.strategy.value;
    StepGood(m, Crash);
    PositionBelowPending(s);
    RunKeepsFloor(m, after, Position(s));
    RunGood(m, after);
    RunPublished(m, after);
    AtLeastPosition(Run(m, after).cursor.strategy.value, Run(m, after).cursor.lastSuccess, Position(s));
  }
}
