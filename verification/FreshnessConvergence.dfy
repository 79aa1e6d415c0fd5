/** When the frontier search has ended. */
module FreshnessConvergence {
  import opened Options
  import opened Freshness
  import opened FreshnessSafety
  import opened FreshnessRuns
  import opened FreshnessSearch

  /** A round that ends before the search has, without its full budget of locate probes. */
  function CutsIn(w: World, a: Action, n: int): (k: nat)
    requires Tidy(w)
  {
    var cut := w.round.Some? && Step(w, a).round.None? && !AtBoundary(w, n) && w.round.value.located < LOCATE_BUDGET;
    if cut then 1 else 0
  }

  function Cuts(w: World, actions: seq<Action>, n: int): (k: nat)
    requires Tidy(w)
    decreases |actions|
  {
    if actions == [] then 0
    else CutsIn(w, actions[0], n) + Cuts(Step(w, actions[0]), actions[1..], n)
  }

  /** Locate probes of the round that is running. */
  function Current(w: World): (k: nat)
  {
    if w.round.Some? then w.round.value.located else 0
  }

  function Running(w: World): (k: nat)
  {
    if w.round.Some? then 1 else 0
  }

  lemma StepSpends(w: World, a: Action, n: int)
    requires Tidy(w) && !AtBoundary(w, n)
    ensures LocatesIn(w, a) + Current(w)
            >= Current(Step(w, a))
               + LOCATE_BUDGET * (RoundsIn(w, a) + Running(w) - Running(Step(w, a)) - CutsIn(w, a, n))
  {
  }

  /** While the search has not ended, every round that was not cut short has spent its budget. */
  lemma {:induction false} RunSpends(w: World, actions: seq<Action>, n: int)
    requires Inv(w) && Tidy(w) && AllAnswered(w, actions, n) && n < MAX_ID && Ready(w, n)
    requires !AtBoundary(Run(w, actions), n)
    ensures Locates(w, actions) + Current(w)
            >= Current(Run(w, actions))
               + LOCATE_BUDGET * (Rounds(w, actions) + Running(w) - Running(Run(w, actions)) - Cuts(w, actions, n))
    decreases |actions|
  {
    if actions != [] {
      var w1 := Step(w, actions[0]);
      StepGood(w, actions[0]);
      StepProgress(w, actions[0], n);
      RunSpends(w1, actions[1..], n);
      if AtBoundary(w, n) {
        RunProgress(w, actions, n);
      }
      StepSpends(w, actions[0], n);
    }
  }

  /** Between any two rounds of any run: the frontier is `n` once logarithmically many rounds have
      followed. Each adds eleven probes besides its one for newer reports, and one that was cut short
      may have to be made up for. */
  lemma SearchEnds(w: World, actions: seq<Action>, n: int)
    requires Inv(w) && Paced(w) && Tidy(w) && w.round.None? && n < MAX_ID
    requires Ready(w, n) && AllAnswered(w, actions, n) && Run(w, actions).round.None?
    requires (LOCATE_BUDGET - 1) * Rounds(w, actions) > Bound(n - Origin(w)) + LOCATE_BUDGET * Cuts(w, actions, n)
    ensures AtBoundary(Run(w, actions), n)
  {
    ProbesAreBounded(w, actions, n);
    if !AtBoundary(Run(w, actions), n) {
      RunSpends(w, actions, n);
    }
  }

  // ---- Rounds that are served to their end ----

  /** Nobody dies, and every round may make the locate probes of its budget. */
  predicate Undisturbed(a: Action)
  {
    !a.Abort? && !a.Crash? && (a.Begin? ==> a.budget >= LOCATE_BUDGET)
  }

  /** While the search has not ended, the running round has made nothing but locate probes, or all
      that it may make. */
  predicate Steady(w: World, n: int)
  {
    w.round.Some? ==>
      var r := w.round.value;
      && r.budget >= LOCATE_BUDGET && r.stop == ""
      && (r.state.frontier != n ==>
          r.state.phase.Locate? && (r.requests == r.located || r.located >= LOCATE_BUDGET))
  }

  lemma StepSteady(w: World, a: Action, n: int)
    requires Inv(w) && Tidy(w) && Answered(w, a, n) && n < MAX_ID && Ready(w, n) && Undisturbed(a) && Steady(w, n)
    ensures Steady(Step(w, a), n) && CutsIn(w, a, n) == 0
  {
    hide Settled, Located, Noted, Good;
    StepProgress(w, a, n);
    if AsksNow(w, a) && !PlanProbe(w.round.value, a.reply.now).phase.Locate? {
      ScanLeaves(w, w.round.value, PlanProbe(w.round.value, a.reply.now).id, a.reply);
    }
  }

  lemma {:induction false} RunUncut(w: World, actions: seq<Action>, n: int)
    requires Inv(w) && Tidy(w) && AllAnswered(w, actions, n) && n < MAX_ID && Ready(w, n) && Steady(w, n)
    requires forall i :: 0 <= i < |actions| ==> Undisturbed(actions[i])
    ensures Cuts(w, actions, n) == 0
    decreases |actions|
  {
    if actions != [] {
      StepGood(w, actions[0]);
      StepProgress(w, actions[0], n);
      StepSteady(w, actions[0], n);
      RunUncut(Step(w, actions[0]), actions[1..], n);
    }
  }

  /** If every round may make at least 12 requests and is served to its end, more rounds than an
      eleventh of the logarithmic bound bring the frontier to `n`. */
  lemma ServedSearchEnds(w: World, actions: seq<Action>, n: int)
    requires Inv(w) && Paced(w) && Tidy(w) && w.round.None? && n < MAX_ID
    requires Ready(w, n) && AllAnswered(w, actions, n) && Run(w, actions).round.None?
    requires forall i :: 0 <= i < |actions| ==> Undisturbed(actions[i])
    requires (LOCATE_BUDGET - 1) * Rounds(w, actions) > Bound(n - Origin(w))
    ensures AtBoundary(Run(w, actions), n)
  {
    RunUncut(w, actions, n);
    SearchEnds(w, actions, n);
  }

  /** The row knows no report above `n`: the first search starts at or below it, and a stored one has
      seen nothing above it. A stored upper end may lie on either side of `n`. */
  predicate Behind(w: World, n: int)
  {
    match w.cursor.strategy
    case None => w.cursor.lastSuccess.Some? && 1 <= w.cursor.lastSuccess.value <= n
    case Some(s) => if s.phase.Scan? then s.frontier <= n else s.search.lower <= n
  }

  lemma BehindIsReady(w: World, n: int)
    requires Inv(w) && w.round.None?
    ensures Behind(w, n) <==> Ready(w, n)
  {
  }

  lemma Reached(w: World, before: seq<Action>)
    requires Fresh(w) && Tidy(w)
    ensures Inv(Run(w, before)) && Paced(Run(w, before))
  {
    RunGood(w, before);
    RunPaced(w, before);
  }

  /** Every search, not only the first: whatever happened before, and wherever the stored search is,
      rounds that are then served to their end find the boundary that the reports have by then. */
  lemma EverySearchEnds(w: World, before: seq<Action>, after: seq<Action>, n: int)
    requires Fresh(w) && Tidy(w) && n < MAX_ID
    requires Run(w, before).round.None? && Behind(Run(w, before), n) && AllAnswered(Run(w, before), after, n)
    requires Run(Run(w, before), after).round.None?
    requires forall i :: 0 <= i < |after| ==> Undisturbed(after[i])
    requires (LOCATE_BUDGET - 1) * Rounds(Run(w, before), after) > Bound(n - Origin(Run(w, before)))
    ensures AtBoundary(Run(Run(w, before), after), n)
  {
    hide *;
    var m := Run(w, before);
    Reached(w, before);
    BehindIsReady(m, n);
    ServedSearchEnds(m, after, n);
  }

  // ---- Such runs exist ----

  lemma {:induction false} Joined(w: World, a: seq<Action>, b: seq<Action>, n: int)
    requires Tidy(w)
    ensures Tidy(Run(w, a)) && Run(w, a + b) == Run(Run(w, a), b)
    ensures AllAnswered(w, a, n) && AllAnswered(Run(w, a), b, n) ==> AllAnswered(w, a + b, n)
    ensures Rounds(w, a + b) == Rounds(w, a) + Rounds(Run(w, a), b)
    decreases |a|
  {
    if a == [] {
      assert a + b == b;
    } else {
      assert (a + b)[1..] == a[1..] + b;
      Joined(Step(w, a[0]), a[1..], b, n);
    }
  }

  /** The running round meets prefix answers until it ends. */
  lemma {:induction false} ServeRound(w: World, n: int) returns (actions: seq<Action>)
    requires Inv(w) && Tidy(w) && Sized(w) && w.round.Some? && !w.orphan
    ensures AllAnswered(w, actions, n) && forall i :: 0 <= i < |actions| ==> actions[i].Iterate?
    ensures Run(w, actions).round.None? && !Run(w, actions).orphan && Rounds(w, actions) == 0
    decreases w.round.value.budget - w.round.value.requests
  {
    var r := w.round.value;
    var plan := PlanProbe(r, 0);
    var status := if plan.Ask? && plan.id > n then Empty else Report(false);
    var a := Iterate(Reply(0, Outcome(status, ""), 0));
    var w1 := Step(w, a);
    StepGood(w, a);
    StepSized(w, a);
    if w1.round.None? {
      actions := [a];
      assert Run(w1, []) == w1 && AllAnswered(w1, [], n) && [a][1..] == [];
    } else {
      var rest := ServeRound(w1, n);
      actions := [a] + rest;
      assert actions[1..] == rest;
    }
  }

  lemma {:induction false} ServeRounds(w: World, n: int, k: nat) returns (actions: seq<Action>)
    requires Inv(w) && Tidy(w) && Sized(w) && w.round.None? && !w.orphan && Validated(w.cursor, None).Ok?
    ensures AllAnswered(w, actions, n) && forall i :: 0 <= i < |actions| ==> Undisturbed(actions[i])
    ensures Run(w, actions).round.None? && Rounds(w, actions) == k
    ensures k > 0 ==> Run(w, actions).cursor.strategy.Some?
    decreases k
  {
    if k == 0 {
      actions := [];
    } else {
      var begin := Begin(None, LOCATE_BUDGET);
      var w1 := Step(w, begin);
      StepGood(w, begin);
      StepSized(w, begin);
      var served := ServeRound(w1, n);
      RunGood(w1, served);
      RunSized(w1, served);
      FrontierNeverDecreases(w1, served);
      var w2 := Run(w1, served);
      SizedIsAccepted(w2, None);
      var rest := ServeRounds(w2, n, k - 1);
      Joined(w1, served, rest, n);
      actions := [begin] + (served + rest);
      assert actions[1..] == served + rest;
      assert Run(w, actions) == Run(w2, rest) && Rounds(w, actions) == 1 + Rounds(w1, served + rest);
      RunGood(w2, rest);
      FrontierNeverDecreases(w2, rest);
    }
  }

  /** From every row that a round accepts, enough served rounds bring the frontier to any `n` that
      the stored search can still end at. */
  lemma SearchCanEnd(w: World, n: int) returns (actions: seq<Action>)
    requires Inv(w) && Paced(w) && Tidy(w) && w.round.None? && !w.orphan && Validated(w.cursor, None).Ok?
    requires Ready(w, n) && n < MAX_ID
    ensures AllAnswered(w, actions, n) && AtBoundary(Run(w, actions), n)
  {
    var k := Bound(n - Origin(w)) + 1;
    actions := ServeRounds(w, n, k);
    ServedSearchEnds(w, actions, n);
  }
}
