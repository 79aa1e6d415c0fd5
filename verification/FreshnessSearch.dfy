/** What the frontier search costs. */
module FreshnessSearch {
  import opened Logarithm
  import opened Options
  import opened Ranges
  import opened Freshness
  import opened FreshnessSafety
  import opened FreshnessRuns

  // From some moment on the reports are exactly the IDs up to some fixed `n` and no probe fails. The
  // search may be anywhere then: not begun, in the middle, or finished at an earlier boundary. It
  // always brackets `n`, and the locate probes of all later rounds together are few.
  // FreshnessConvergence concludes from that when the frontier is `n`.

  // ---- Probes that remain ----

  function NextStep(step: int): (s: int)
  {
    Min(MAX_ID, Max(64, step * 2))
  }

  /** Probes of a gallop that still has `d` reports above its lower end. */
  function Gallop(d: nat, step: int): (k: nat)
    requires step >= 1
    ensures k >= 1
    decreases d
  {
    if d < step then 1 + Log2(step) else 1 + Gallop(d - step, NextStep(step))
  }

  /** The stored search can still end at `n`; `upper` may lie below it until it is asked again. */
  predicate Awaits(s: State, n: int)
  {
    && s.frontier <= n && s.search.step >= 1
    && (s.phase.Locate? ==>
        && s.frontier <= s.search.lower <= n
        && (s.search.upper.Some? ==> s.search.lower < s.search.upper.value))
  }

  function Remaining(s: State, n: int): (k: nat)
    requires Awaits(s, n)
  {
    if s.phase.Scan? then Gallop(n - s.frontier, 1) - 1
    else if s.search.upper.None? then Gallop(n - s.search.lower, s.search.step)
    else if n < s.search.upper.value then Log2(s.search.upper.value - s.search.lower)
    else Gallop(n - s.search.upper.value, 64)
  }

  /** The number of locate probes, besides one revalidation a round, that reach a
      frontier `d` reports above the stored one. */
  function Bound(d: int): (k: nat)
  {
    2 + Log2(d + 1) + Log2(2 * d + 64)
  }

  lemma {:induction false} GallopBound(d: nat, step: int, j: nat)
    requires 64 <= step <= MAX_ID && d < MAX_ID
    requires d + step <= step * Pow2(j)
    ensures Gallop(d, step) <= 1 + j + Log2(d + step)
    decreases d
  {
    if d < step {
      Log2Monotone(step, d + step);
    } else {
      assert j > 0;
      if step * 2 <= MAX_ID {
        assert step * 2 * Pow2(j - 1) == step * Pow2(j);
        GallopBound(d - step, step * 2, j - 1);
      } else {
        Log2Monotone(MAX_ID, d + step);
      }
    }
  }

  lemma LongGallop(d: nat, step: int)
    requires 64 <= step <= MAX_ID && d < MAX_ID
    ensures Gallop(d, step) <= 1 + Log2(d + 1) + Log2(d + step)
  {
    hide Gallop;
    var j := Log2(d + 1);
    Log2Covers(d + 1);
    Stretch(d, step, Pow2(j));
    GallopBound(d, step, j);
  }

  lemma {:induction false} Stretch(d: nat, step: int, p: int)
    requires step >= 1 && p >= d + 1
    ensures d + step <= step * p
    decreases p
  {
    if p > 1 {
      assert step * p == step * (p - 1) + step;
      Stretch(if d > 0 then d - 1 else 0, step, p - 1);
    }
  }

  lemma ShortGallop(d: nat, step: int)
    requires 1 <= step < 64 && d < MAX_ID
    ensures Gallop(d, step) <= 2 + Log2(d + 1) + Log2(d + 64)
  {
    if d < step {
      Log2Monotone(step, d + 64);
    } else {
      LongGallop(d - step, NextStep(step));
      Log2Monotone(d - step + 1, d + 1);
      Log2Monotone(d - step + NextStep(step), d + 64);
    }
  }

  /** How far a search leaps is bounded by how far it has come. */
  predicate PacedSearch(s: State)
  {
    s.phase.Locate? && s.search.lower < MAX_ID ==>
      && s.search.step <= Max(64, 2 * (s.search.lower - s.frontier))
      && (s.search.upper.Some? ==> s.search.upper.value - s.search.lower <= s.search.step)
  }

  lemma RemainingBound(s: State, n: int)
    requires Awaits(s, n) && PacedSearch(s) && IsId(s.frontier) && IsId(s.search.step) && n < MAX_ID
    ensures Remaining(s, n) <= Bound(n - s.frontier)
  {
    hide Gallop, Log2;
    var d := n - s.frontier;
    if s.phase.Scan? {
      ShortGallop(d, 1);
      Log2Monotone(d + 64, 2 * d + 64);
    } else if s.search.upper.None? {
      GallopLeft(n - s.search.lower, s.search.step, d);
    } else if s.search.upper.value <= n {
      GallopLeft(n - s.search.upper.value, 64, d);
    } else {
      Log2Monotone(s.search.upper.value - s.search.lower, 2 * d + 64);
    }
  }

  lemma GallopLeft(left: nat, step: int, d: nat)
    requires left <= d < MAX_ID && 1 <= step <= MAX_ID && step <= Max(64, 2 * (d - left))
    ensures Gallop(left, step) <= Bound(d)
  {
    hide Gallop, Log2;
    Log2Monotone(left + 1, d + 1);
    Log2Monotone(left + 64, 2 * d + 64);
    Log2Monotone(left + step, 2 * d + 64);
    if step < 64 {
      ShortGallop(left, step);
    } else {
      LongGallop(left, step);
    }
  }

  // ---- The world answers like a prefix ----

  predicate PrefixAnswer(id: int, o: Outcome, n: int)
  {
    o.deferredStop == "" && if id <= n then o.status.Report? else o.status.Empty?
  }

  predicate AsksNow(w: World, a: Action)
    requires Tidy(w)
  {
    && a.Iterate? && w.round.Some?
    && w.round.value.requests < w.round.value.budget && w.round.value.stop == ""
    && PlanProbe(w.round.value, a.reply.now).Ask?
  }

  predicate Answered(w: World, a: Action, n: int)
    requires Tidy(w)
  {
    AsksNow(w, a) ==> PrefixAnswer(PlanProbe(w.round.value, a.reply.now).id, a.reply.outcome, n)
  }

  predicate AllAnswered(w: World, actions: seq<Action>, n: int)
    requires Tidy(w)
    decreases |actions|
  {
    actions != [] ==> Answered(w, actions[0], n) && AllAnswered(Step(w, actions[0]), actions[1..], n)
  }

  function LocatesIn(w: World, a: Action): (k: nat)
    requires Tidy(w)
  {
    if AsksNow(w, a) && PlanProbe(w.round.value, a.reply.now).phase.Locate? then 1 else 0
  }

  function Locates(w: World, actions: seq<Action>): (k: nat)
    requires Tidy(w)
    decreases |actions|
  {
    if actions == [] then 0
    else LocatesIn(w, actions[0]) + Locates(Step(w, actions[0]), actions[1..])
  }

  function RoundsIn(w: World, a: Action): (k: nat)
    requires Tidy(w)
  {
    if a.Begin? && w.round.None? && Step(w, a).round.Some? then 1 else 0
  }

  function Rounds(w: World, actions: seq<Action>): (k: nat)
    requires Tidy(w)
    decreases |actions|
  {
    if actions == [] then 0
    else RoundsIn(w, actions[0]) + Rounds(Step(w, actions[0]), actions[1..])
  }

  /** The rows and the running round can still end the search at `n`. */
  predicate Ready(w: World, n: int)
  {
    match w.cursor.strategy
    case None => w.cursor.lastSuccess.Some? && 1 <= w.cursor.lastSuccess.value <= n
    case Some(s) =>
      && Awaits(s, n)
      && (w.round.Some? && s.phase.Locate? && s.search.upper.Some? && s.search.upper.value <= n ==>
          w.round.value.revalidate == s.search.upper)
  }

  /** The bracket holds `n`, and a finished boundary is `n`. */
  predicate Brackets(s: State, n: int)
  {
    && Awaits(s, n)
    && (s.phase.Locate? && s.search.upper.Some? ==> n < s.search.upper.value)
    && (s.phase.Scan? ==> s.frontier == n)
  }

  predicate Encloses(w: World, n: int)
  {
    w.cursor.strategy.Some? && Brackets(w.cursor.strategy.value, n)
  }

  predicate AtBoundary(w: World, n: int)
  {
    w.cursor.strategy.Some? && w.cursor.strategy.value.frontier == n
  }

  /** Locate probes that the stored search and a pending revalidation may still cost. */
  function Potential(w: World, n: int): (k: nat)
    requires Ready(w, n)
  {
    match w.cursor.strategy
    case None => Gallop(n - w.cursor.lastSuccess.value, 1)
    case Some(s) => Remaining(s, n) + (if w.round.Some? && w.round.value.revalidate.Some? then 1 else 0)
  }

  /** One locate probe narrows the bracket and uses up the potential. */
  lemma LocateProgress(s: State, probe: int, status: Status, n: int)
    requires s.phase.Locate? && Awaits(s, n) && n < MAX_ID && Askable(s.search, probe)
    requires s.search.upper.Some? ==> s.search.lower + 2 <= s.search.upper.value
    requires if probe <= n then status.Report? else status.Empty?
    requires || s.search.upper == Some(probe)
             || (s.search.upper.Some? && n < s.search.upper.value
                 && probe == (s.search.lower + s.search.upper.value) / 2)
             || (s.search.upper.None? && probe == Min(MAX_ID, s.search.lower + s.search.step))
    ensures var s' := Located(s, probe, status);
      && Brackets(s', n) && (s'.frontier == s.frontier || s'.frontier == n)
      && Remaining(s', n) + (if s.search.upper == Some(probe) then 0 else 1) <= Remaining(s, n)
  {
    hide Merged;
    var s' := Located(s, probe, status);
    if s.search.upper.Some? {
      var width := s.search.upper.value - s.search.lower;
      if s.search.upper != Some(probe) {
        Log2Monotone(s'.search.upper.value - s'.search.lower, (width + 1) / 2);
      }
    } else if status.Empty? {
      Log2Monotone(probe - s.search.lower, s.search.step);
    }
  }

  lemma StoredSearch(w: World)
    requires Inv(w) && w.cursor.strategy.Some?
    ensures var s := w.cursor.strategy.value;
      && SearchAcceptable(s, w.cursor.lastSuccess) && IsId(s.frontier)
      && (s.phase.Locate? && s.search.upper.Some? ==> s.search.lower + 2 <= s.search.upper.value)
  {
  }

  /** The state that a locate probe leaves differs from the narrowed one in pending and deferred IDs only. */
  lemma LocateLeaves(w: World, r: Round, probe: int, reply: Reply)
    requires Tidy(w) && w.round == Some(r) && r.state.phase.Locate?
    ensures var s, s' := Located(r.state, probe, reply.outcome.status),
                         Recorded(w, r, probe, Locate, reply).round.value.state;
      s'.phase == s.phase && s'.frontier == s.frontier && s'.search == s.search
  {
    hide Located;
    AllFinishedFields(Located(r.state, probe, reply.outcome.status), Noted(r.filtered, Locate, probe, reply.outcome));
  }

  lemma ScanLeaves(w: World, r: Round, probe: int, reply: Reply)
    requires Tidy(w) && w.round == Some(r)
    ensures var s' := Recorded(w, r, probe, Scan, reply).round.value.state;
      s'.phase == r.state.phase && s'.frontier == r.state.frontier && s'.search == r.state.search
  {
  }

  lemma LocateTurn(w: World, r: Round, reply: Reply, n: int)
    requires Inv(w) && Ready(w, n) && n < MAX_ID && Tidy(w) && w.round == Some(r) && r.state.phase.Locate?
    requires PlanLocate(r).Ask? && PrefixAnswer(PlanLocate(r).id, reply.outcome, n)
    ensures var w' := Recorded(w, r, PlanLocate(r).id, Locate, reply);
      && Ready(w', n) && Encloses(w', n) && (AtBoundary(w, n) ==> AtBoundary(w', n))
      && Potential(w', n) + 1 <= Potential(w, n)
  {
    hide Located, Settled, Noted, Good, Log2, Gallop;
    var probe := PlanLocate(r).id;
    StoredSearch(w);
    PlanLocateFacts(r, w.cursor.lastSuccess);
    LocateProgress(r.state, probe, reply.outcome.status, n);
    LocateLeaves(w, r, probe, reply);
  }

  lemma ScanTurn(w: World, r: Round, probe: int, reply: Reply, n: int)
    requires Inv(w) && Ready(w, n) && Tidy(w) && w.round == Some(r)
    ensures var w' := Recorded(w, r, probe, Scan, reply);
      && Ready(w', n) && (Encloses(w, n) ==> Encloses(w', n)) && (AtBoundary(w, n) ==> AtBoundary(w', n))
      && Potential(w', n) == Potential(w, n)
  {
    hide Settled, Noted, Good, Log2, Gallop;
    ScanLeaves(w, r, probe, reply);
  }

  lemma BeginProgress(w: World, startId: Option<int>, budget: nat, n: int)
    requires Inv(w) && Ready(w, n) && w.round.None? && Validated(w.cursor, startId).Ok?
    ensures var w' := Opened(w, startId, budget);
      && Ready(w', n) && (Encloses(w, n) ==> Encloses(w', n)) && (AtBoundary(w, n) ==> AtBoundary(w', n))
      && Potential(w', n) <= Potential(w, n) + 1
  {
    hide Good, Merged, Acceptable;
  }

  lemma StepProgress(w: World, a: Action, n: int)
    requires Inv(w) && Ready(w, n) && n < MAX_ID
    requires Tidy(w) && Answered(w, a, n)
    ensures Ready(Step(w, a), n)
    ensures Encloses(w, n) || LocatesIn(w, a) == 1 ==> Encloses(Step(w, a), n)
    ensures AtBoundary(w, n) ==> AtBoundary(Step(w, a), n)
    ensures Potential(Step(w, a), n) + LocatesIn(w, a) <= Potential(w, n) + RoundsIn(w, a)
  {
    hide Good, Validated, Recorded, Brackets;
    if AsksNow(w, a) {
      var r := w.round.value;
      var plan := PlanProbe(r, a.reply.now);
      if plan.phase.Locate? {
        LocateTurn(w, r, a.reply, n);
      } else {
        ScanTurn(w, r, plan.id, a.reply, n);
      }
    } else if a.Begin? && w.round.None? && !w.orphan && Validated(w.cursor, a.startId).Ok? {
      BeginProgress(w, a.startId, a.budget, n);
    }
  }

  lemma {:induction false} RunProgress(w: World, actions: seq<Action>, n: int)
    requires Inv(w) && Ready(w, n) && n < MAX_ID
    requires Tidy(w) && AllAnswered(w, actions, n)
    ensures Ready(Run(w, actions), n)
    ensures Encloses(w, n) ==> Encloses(Run(w, actions), n)
    ensures AtBoundary(w, n) ==> AtBoundary(Run(w, actions), n)
    ensures Potential(Run(w, actions), n) + Locates(w, actions) <= Potential(w, n) + Rounds(w, actions)
    decreases |actions|
  {
    if actions != [] {
      StepGood(w, actions[0]);
      StepProgress(w, actions[0], n);
      RunProgress(Step(w, actions[0]), actions[1..], n);
    }
  }

  // ---- How far a search leaps, whatever the answers ----

  predicate Paced(w: World)
  {
    w.cursor.strategy.Some? ==> PacedSearch(w.cursor.strategy.value)
  }

  lemma LocatePaced(r: Round, last: Option<int>, status: Status)
    requires r.state.phase.Locate? && SearchAcceptable(r.state, last) && PacedSearch(r.state)
    requires r.revalidate.Some? ==> r.state.search.upper == r.revalidate
    requires PlanLocate(r).Ask?
    ensures PacedSearch(Located(r.state, PlanLocate(r).id, status))
  {
    hide Merged;
  }

  lemma StepPaced(w: World, a: Action)
    requires Inv(w) && Paced(w) && Tidy(w)
    ensures Paced(Step(w, a))
  {
    hide Good, Settled, Located, Noted;
    if a.Iterate? && w.round.Some? {
      var r := w.round.value;
      var plan := PlanProbe(r, a.reply.now);
      if plan.Ask? && plan.phase.Locate? {
        StoredSearch(w);
        LocatePaced(r, w.cursor.lastSuccess, a.reply.outcome.status);
        LocateLeaves(w, r, plan.id, a.reply);
      } else if plan.Ask? {
        ScanLeaves(w, r, plan.id, a.reply);
      }
    }
  }

  lemma {:induction false} RunPaced(w: World, actions: seq<Action>)
    requires Inv(w) && Paced(w) && Tidy(w)
    ensures Paced(Run(w, actions))
    decreases |actions|
  {
    if actions != [] {
      StepGood(w, actions[0]);
      StepPaced(w, actions[0]);
      RunPaced(Step(w, actions[0]), actions[1..]);
    }
  }

  // ---- The bound ----

  /** Where the next search begins. */
  function Origin(w: World): (id: int)
  {
    if w.cursor.strategy.Some? then w.cursor.strategy.value.frontier
    else if w.cursor.lastSuccess.Some? then w.cursor.lastSuccess.value
    else 0
  }

  lemma PotentialBound(w: World, n: int)
    requires Inv(w) && Paced(w) && Ready(w, n) && n < MAX_ID && w.round.None?
    ensures Potential(w, n) <= Bound(n - Origin(w))
  {
    if w.cursor.strategy.None? {
      ShortGallop(n - Origin(w), 1);
      Log2Monotone(n - Origin(w) + 64, 2 * (n - Origin(w)) + 64);
    } else {
      RemainingBound(w.cursor.strategy.value, n);
    }
  }

  /** Between any two rounds of any run: whatever rounds and crashes follow, the locate probes number at
      most Bound(n - frontier), plus one for each round, which asks the stored upper end again or looks
      for newer reports. */
  lemma ProbesAreBounded(w: World, actions: seq<Action>, n: int)
    requires Inv(w) && Paced(w) && Tidy(w) && w.round.None? && n < MAX_ID
    requires Ready(w, n) && AllAnswered(w, actions, n)
    ensures Locates(w, actions) <= Bound(n - Origin(w)) + Rounds(w, actions)
  {
    PotentialBound(w, n);
    RunProgress(w, actions, n);
  }
}
