/** Exclusive ownership of the cursor row, and where a run leaves it. */
module DiscoveryRuns {
  // All of it holds over every interleaving of claims, probes, finishes, failures and crashes.
  import opened Options
  import opened Discovery

  // ---- Reading the log ----

  predicate HasClaim(log: seq<Event>, run: nat)
  {
    log != [] && (
      var e := log[|log| - 1];
      (e.run == run && e.Claimed?) || HasClaim(log[..|log| - 1], run))
  }

  /** The claim of a run: the row and the configuration it began with. */
  function ClaimOf(log: seq<Event>, run: nat): (e: Event)
    requires HasClaim(log, run)
    ensures e.Claimed?
  {
    var e := log[|log| - 1];
    if e.run == run && e.Claimed? then e else ClaimOf(log[..|log| - 1], run)
  }

  /** One past the run's last accepted report, or where the run began. */
  function Target(log: seq<Event>, run: nat): (id: Option<int>)
    requires HasClaim(log, run)
  {
    var e := log[|log| - 1];
    if e.run != run then Target(log[..|log| - 1], run)
    else if e.Claimed? then StartOf(e.cursor, e.config)
    else if e.Probed? && e.accepted then Some(e.probe + 1)
    else Target(log[..|log| - 1], run)
  }

  /** Since its claim the run has committed an accepted report or an empty ID. */
  predicate Touched(log: seq<Event>, run: nat)
    requires HasClaim(log, run)
  {
    var e := log[|log| - 1];
    if e.run != run then Touched(log[..|log| - 1], run)
    else !e.Claimed? && ((e.Probed? && (e.accepted || e.outcome.status.Empty?)) || Touched(log[..|log| - 1], run))
  }

  lemma Appended(log: seq<Event>, e: Event)
    ensures (log + [e])[..|log|] == log && (log + [e])[|log|] == e
  {
  }

  // ---- Invariants ----

  predicate SamePlace(a: Cursor, b: Cursor)
  {
    a.nextProbe == b.nextProbe && a.provisional == b.provisional && a.lastSuccess == b.lastSuccess
  }

  /** What the row says about the run that is running over it. */
  predicate Anchored(cursor: Cursor, log: seq<Event>, run: nat)
  {
    && HasClaim(log, run)
    && if Touched(log, run) then RolledBack(cursor).nextProbe.Some? && RolledBack(cursor).nextProbe == Target(log, run)
       else SamePlace(cursor, ClaimOf(log, run).cursor) && Target(log, run) == StartOf(cursor, ClaimOf(log, run).config)
  }

  /** The run's worker has the row in memory, and its provisional ID. */
  predicate Agrees(wk: Worker, cursor: Cursor, log: seq<Event>, run: nat)
  {
    && HasClaim(log, run) && wk.config == ClaimOf(log, run).config
    && wk.cursor == cursor
    && (wk.firstEmpty.Some? ==> cursor.provisional == wk.firstEmpty && Touched(log, run))
    && (wk.firstEmpty.None? && Touched(log, run) ==> cursor.provisional.None?)
    && (wk.next.Some? ==> wk.next == StartOf(cursor, wk.config))
  }

  predicate Numbered(w: World)
  {
    && (forall r :: r in w.db.runs ==> r < w.db.nextRun)
    && (forall r :: r in w.workers ==> r in w.db.runs)
    && (forall i :: 0 <= i < |w.log| ==> w.log[i].run < w.db.nextRun)
  }

  predicate Exclusive(db: Database)
  {
    forall r, s :: r in db.runs && s in db.runs && db.runs[r].status.Running? && db.runs[s].status.Running? ==> r == s
  }

  predicate RunHolds(w: World, r: nat)
  {
    r in w.db.runs && w.db.runs[r].status.Running? ==>
      && w.db.runs[r].owner == Some(r)
      && Anchored(w.db.cursor, w.log, r)
      && (r in w.workers ==> Agrees(w.workers[r], w.db.cursor, w.log, r))
  }

  ghost predicate Inv(w: World)
  {
    Numbered(w) && Exclusive(w.db) && forall r :: RunHolds(w, r)
  }

  // ---- Steps keep them ----

  lemma {:induction false} NoClaimYet(log: seq<Event>, run: nat)
    requires forall i :: 0 <= i < |log| ==> log[i].run < run
    ensures !HasClaim(log, run)
  {
    if log != [] {
      NoClaimYet(log[..|log| - 1], run);
    }
  }

  lemma ClaimInv(w: World, config: Config, now: int, createdAt: int)
    requires Inv(w)
    ensures Inv(ClaimStep(w, config, now, createdAt))
  {
    var db := Recovered(w.db, now);
    var w' := ClaimStep(w, config, now, createdAt);
    if !SomeRunning(db) {
      var e := Claimed(db.nextRun, config, db.cursor, createdAt);
      Appended(w.log, e);
      forall r ensures RunHolds(w', r) {
        if r in w'.db.runs && w'.db.runs[r].status.Running? {
          assert r == db.nextRun;
        }
      }
    }
  }

  lemma ProbeInv(w: World, run: nat, o: Outcome)
    requires Inv(w)
    ensures Inv(Step(w, Probe(run, o)))
  {
    if run in w.workers && Continues(w.workers[run]) && Live(w.db, run) {
      var wk := w.workers[run];
      assert RunHolds(w, run);
      var w' := Step(w, Probe(run, o));
      forall r ensures RunHolds(w', r) {
        assert RunHolds(w, r);
      }
    } else {
      OtherInv(w, Probe(run, o));
    }
  }

  /** Steps that neither claim nor probe. */
  lemma OtherInv(w: World, a: Action)
    requires Inv(w) && !a.Claim?
    requires a.Probe? ==> !(a.run in w.workers && Continues(w.workers[a.run]) && Live(w.db, a.run))
    ensures Inv(Step(w, a))
  {
    hide Continues, Record, FinishedCursor;
    var w' := Step(w, a);
    forall r ensures RunHolds(w', r) {
      assert RunHolds(w, r);
      assert RunHolds(w, a.run);
    }
  }

  lemma StepInv(w: World, a: Action)
    requires Inv(w)
    ensures Inv(Step(w, a))
  {
    match a
    case Claim(config, now, createdAt) => ClaimInv(w, config, now, createdAt);
    case Probe(run, o) => ProbeInv(w, run, o);
    case _ => OtherInv(w, a);
  }

  lemma {:induction false} RunInv(w: World, actions: seq<Action>)
    requires Inv(w)
    ensures Inv(Run(w, actions))
    decreases |actions|
  {
    if actions != [] {
      StepInv(w, actions[0]);
      RunInv(Step(w, actions[0]), actions[1..]);
    }
  }

  // ---- The claims ----

  /** Over every run at most one run of the cursor is RUNNING, and the worker that
      owns it has exactly the row in memory. */
  lemma OwnerIsUniqueAndCurrent(cursor: Cursor, actions: seq<Action>, r: nat, s: nat)
    requires var db := Run(Fresh(cursor), actions).db; r in db.runs && db.runs[r].status.Running?
    ensures var w := Run(Fresh(cursor), actions);
      && (s in w.db.runs && w.db.runs[s].status.Running? ==> s == r)
      && (r in w.workers ==> w.workers[r].cursor == w.db.cursor)
  {
    RunInv(Fresh(cursor), actions);
    assert RunHolds(Run(Fresh(cursor), actions), r);
  }

  /** The row's position is written only by the worker that owns the running run, or
      by a claim that recovers an expired one. */
  lemma OnlyTheOwnerWrites(w: World, a: Action)
    requires Inv(w) && Step(w, a).db.cursor != w.db.cursor
    ensures if a.Claim? then SomeExpired(w.db, a.now) else a.run in w.workers && Live(w.db, a.run)
  {
  }

  /** A clean finish leaves the position one past the run's last accepted report, or
      where the run began. */
  lemma FinishLandsOnTarget(cursor: Cursor, actions: seq<Action>, run: nat)
    requires var w := Run(Fresh(cursor), actions); run in w.workers && Live(w.db, run)
    ensures var w := Run(Fresh(cursor), actions);
      && HasClaim(w.log, run)
      && StartOf(Step(w, Finish(run)).db.cursor, ClaimOf(w.log, run).config) == Target(w.log, run)
  {
    RunInv(Fresh(cursor), actions);
    assert RunHolds(Run(Fresh(cursor), actions), run);
  }

  /** A crash at any commit point, recovered after the lease expired, leaves it at
      the same place, except in one case: the row already carried a provisional
      empty ID when the run was claimed, and the run died before it committed a
      report or an empty ID. */
  lemma RecoveryLandsOnTarget(cursor: Cursor, actions: seq<Action>, run: nat, now: int)
    requires var db := Run(Fresh(cursor), actions).db; run in db.runs && Expired(db.runs[run], now)
    ensures var w := Run(Fresh(cursor), actions);
      && HasClaim(w.log, run)
      && (StartOf(Recovered(w.db, now).cursor, ClaimOf(w.log, run).config) == Target(w.log, run) <==>
          var claimed := ClaimOf(w.log, run);
          Touched(w.log, run) || claimed.cursor.provisional.None?
          || claimed.cursor.provisional == StartOf(claimed.cursor, claimed.config))
  {
    RunInv(Fresh(cursor), actions);
    assert RunHolds(Run(Fresh(cursor), actions), run);
  }

  // ---- Where inherited provisional IDs come from ----

  ghost predicate Clean(w: World)
  {
    && (w.db.cursor.provisional.Some? ==> SomeRunning(w.db))
    && forall i :: 0 <= i < |w.log| && w.log[i].Claimed? ==> w.log[i].cursor.provisional.None?
  }

  lemma StepClean(w: World, a: Action)
    requires Inv(w) && Clean(w) && !a.Fail?
    ensures Clean(Step(w, a))
  {
    var w' := Step(w, a);
    if a.Claim? {
      var db := Recovered(w.db, a.now);
      if !SomeRunning(db) {
        if w.db.cursor.provisional.Some? {
          var r :| r in w.db.runs && w.db.runs[r].status.Running?;
          assert r in db.runs && !db.runs[r].status.Running?;
          assert Expired(w.db.runs[r], a.now);
        }
        assert db.nextRun in w'.db.runs && w'.db.runs[db.nextRun].status.Running?;
      }
    } else if a.run in w.workers && Live(w.db, a.run) {
      assert RunHolds(w, a.run);
      if a.Finish? {
        FinishClears(w, a.run);
      } else {
        assert a.run in w'.db.runs && w'.db.runs[a.run].status.Running?;
      }
    } else if w.db.cursor.provisional.Some? {
      var r :| r in w.db.runs && w.db.runs[r].status.Running?;
      assert r in w'.db.runs && w'.db.runs[r].status.Running?;
    }
  }

  lemma {:induction false} ClaimInLog(log: seq<Event>, run: nat) returns (i: nat)
    requires HasClaim(log, run)
    ensures i < |log| && log[i] == ClaimOf(log, run)
  {
    var e := log[|log| - 1];
    if e.run == run && e.Claimed? {
      i := |log| - 1;
    } else {
      i := ClaimInLog(log[..|log| - 1], run);
    }
  }

  lemma FinishClears(w: World, run: nat)
    requires Inv(w) && Clean(w) && run in w.workers && Live(w.db, run)
    ensures FinishedCursor(w.workers[run]).provisional.None?
  {
    assert RunHolds(w, run);
    var i := ClaimInLog(w.log, run);
  }

  lemma {:induction false} RunClean(w: World, actions: seq<Action>)
    requires Inv(w) && Clean(w) && forall i :: 0 <= i < |actions| ==> !actions[i].Fail?
    ensures Inv(Run(w, actions)) && Clean(Run(w, actions))
    decreases |actions|
  {
    if actions != [] {
      StepInv(w, actions[0]);
      StepClean(w, actions[0]);
      RunClean(Step(w, actions[0]), actions[1..]);
    }
  }

  /** Without the exception exit the exception never arises: from a row without a
      provisional ID, every recovery lands where a clean finish would. */
  lemma CrashEqualsFinish(cursor: Cursor, actions: seq<Action>, run: nat, now: int)
    requires cursor.provisional.None? && forall i :: 0 <= i < |actions| ==> !actions[i].Fail?
    requires var db := Run(Fresh(cursor), actions).db; run in db.runs && Expired(db.runs[run], now)
    ensures var w := Run(Fresh(cursor), actions);
      && HasClaim(w.log, run)
      && StartOf(Recovered(w.db, now).cursor, ClaimOf(w.log, run).config) == Target(w.log, run)
      && (run in w.workers ==>
          StartOf(Step(w, Finish(run)).db.cursor, ClaimOf(w.log, run).config) ==
          StartOf(Recovered(w.db, now).cursor, ClaimOf(w.log, run).config))
  {
    RecoveryLandsOnTarget(cursor, actions, run, now);
    RunClean(Fresh(cursor), actions);
    var w := Run(Fresh(cursor), actions);
    assert RunHolds(w, run);
    var i := ClaimInLog(w.log, run);
    if run in w.workers {
      FinishLandsOnTarget(cursor, actions, run);
    }
  }

  // ---- An input for the exception ----

  const EXAMPLE := Config(None, 3, 5)

  /** A run asked 10, got nothing and left by the exception exit. */
  function AfterFailure(): World
  {
    World(Database(Cursor(Some(9), None, 1, Some(11), Some(10)), map[0 := RunRow(FailedRun, None, None)], 1), map[],
          [Claimed(0, EXAMPLE, Cursor(Some(9), None, 0, Some(10), None), 0), Probed(0, 10, Outcome(Empty, ""), false),
           Ended(0)])
  }

  /** The next one died at once. */
  function AfterCrash(): World
  {
    var w := AfterFailure();
    World(Database(w.db.cursor, w.db.runs[1 := RunRow(Running, Some(1), Some(RUN_LEASE_MS))], 2), map[],
          w.log + [Claimed(1, EXAMPLE, w.db.cursor, 0)])
  }

  lemma {:induction false} RunJoined(w: World, a: seq<Action>, b: seq<Action>)
    ensures Run(w, a + b) == Run(Run(w, a), b)
    decreases |a|
  {
    if a == [] {
      assert a + b == b;
    } else {
      assert (a + b)[1..] == a[1..] + b;
      RunJoined(Step(w, a[0]), a[1..], b);
    }
  }

  lemma FailureExample()
    ensures Run(Fresh(Cursor(Some(9), None, 0, Some(10), None)),
                [Claim(EXAMPLE, 0, 0), Probe(0, Outcome(Empty, "")), Fail(0)]) == AfterFailure()
  {
    var w := Fresh(Cursor(Some(9), None, 0, Some(10), None));
    var w1 := Step(w, Claim(EXAMPLE, 0, 0));
    assert Recovered(w.db, 0) == w.db;
    assert w1.db.runs == map[0 := RunRow(Running, Some(0), Some(RUN_LEASE_MS))];
    assert w1.workers == map[0 := Claimant(w.db, EXAMPLE)];
    var w2 := Step(w1, Probe(0, Outcome(Empty, "")));
    assert w2.workers - {0} == map[];
    RunOfThree(w, Claim(EXAMPLE, 0, 0), Probe(0, Outcome(Empty, "")), Fail(0));
  }

  lemma RunOfThree(w: World, a: Action, b: Action, c: Action)
    ensures Run(w, [a, b, c]) == Step(Step(Step(w, a), b), c)
  {
    hide Step;
    assert [a, b, c][1..] == [b, c] && [b, c][1..] == [c] && [c][1..] == [];
    assert Run(Step(Step(w, a), b), [c]) == Step(Step(Step(w, a), b), c);
    assert Run(Step(w, a), [b, c]) == Run(Step(Step(w, a), b), [c]);
  }

  lemma CrashExample()
    ensures Run(AfterFailure(), [Claim(EXAMPLE, 0, 0), Crash(1)]) == AfterCrash()
  {
    var w := AfterFailure();
    assert Recovered(w.db, 0) == w.db;
    var w1 := Step(w, Claim(EXAMPLE, 0, 0));
    assert w1.workers - {1} == map[];
    assert [Claim(EXAMPLE, 0, 0), Crash(1)][1..] == [Crash(1)] && [Crash(1)][1..] == [];
  }

  /** After these steps recovery goes back to 10, while the run began at 11 and accepted nothing. */
  lemma RecoveryMissesTarget()
    ensures var actions := [Claim(EXAMPLE, 0, 0), Probe(0, Outcome(Empty, "")), Fail(0),
                            Claim(EXAMPLE, 0, 0), Crash(1)];
      var w := Run(Fresh(Cursor(Some(9), None, 0, Some(10), None)), actions);
      && w == AfterCrash() && Target(w.log, 1) == Some(11)
      && 1 in w.db.runs && Expired(w.db.runs[1], RUN_LEASE_MS)
      && StartOf(Recovered(w.db, RUN_LEASE_MS).cursor, EXAMPLE) == Some(10)
  {
    FailureExample();
    CrashExample();
    var first := [Claim(EXAMPLE, 0, 0), Probe(0, Outcome(Empty, "")), Fail(0)];
    RunJoined(Fresh(Cursor(Some(9), None, 0, Some(10), None)), first, [Claim(EXAMPLE, 0, 0), Crash(1)]);
    assert first + [Claim(EXAMPLE, 0, 0), Crash(1)] == [Claim(EXAMPLE, 0, 0), Probe(0, Outcome(Empty, "")), Fail(0),
      Claim(EXAMPLE, 0, 0), Crash(1)];
    var w := AfterCrash();
    assert w.log[..|w.log| - 1] == AfterFailure().log;
    assert 1 in w.db.runs && SomeExpired(w.db, RUN_LEASE_MS);
  }

  // ---- What this collector leaves for others ----

  /** A provisional empty ID is never above the position. */
  predicate Ordered(cursor: Cursor)
  {
    cursor.provisional.Some? ==> cursor.nextProbe.Some? && cursor.provisional.value <= cursor.nextProbe.value
  }

  ghost predicate AllOrdered(w: World)
  {
    Ordered(w.db.cursor) && forall r :: r in w.workers ==> WorkerOrdered(w.workers[r])
  }

  predicate WorkerOrdered(wk: Worker)
  {
    && Ordered(wk.cursor) && (wk.firstEmpty.Some? ==> wk.cursor.provisional == wk.firstEmpty)
    && (wk.cursor.nextProbe.Some? ==> wk.next == wk.cursor.nextProbe)
  }

  lemma StepOrdered(w: World, a: Action)
    requires AllOrdered(w)
    ensures AllOrdered(Step(w, a))
  {
  }

  lemma {:induction false} RunOrdered(w: World, actions: seq<Action>)
    requires AllOrdered(w)
    ensures AllOrdered(Run(w, actions))
    decreases |actions|
  {
    if actions != [] {
      StepOrdered(w, actions[0]);
      RunOrdered(Step(w, actions[0]), actions[1..]);
    }
  }

  /** So a row that only this collector has used carries none above it. */
  lemma LeavesNoStaleProvisional(cursor: Cursor, actions: seq<Action>)
    requires cursor.provisional.None?
    ensures Ordered(Run(Fresh(cursor), actions).db.cursor)
  {
    RunOrdered(Fresh(cursor), actions);
  }
}
