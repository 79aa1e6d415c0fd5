/** Which IDs a run asks, and when it stops. */
module DiscoveryProbes {
  import opened Options
  import opened Discovery
  import opened DiscoveryRuns

  // ---- What the log says about a run ----

  /** The IDs that the run has asked, in order. */
  function Asked(log: seq<Event>, run: nat): (ids: seq<int>)
  {
    if log == [] then []
    else
      var e, before := log[|log| - 1], Asked(log[..|log| - 1], run);
      if e.Probed? && e.run == run then before + [e.probe] else before
  }

  /** Where the run began. */
  function Origin(log: seq<Event>, run: nat): (id: Option<int>)
    requires HasClaim(log, run)
  {
    var row, config := ClaimOf(log, run).cursor, ClaimOf(log, run).config;
    if row.nextProbe.Some? then row.nextProbe
    else if row.lastSuccess.Some? then Some(row.lastSuccess.value + 1)
    else config.startId
  }

  /** Empty answers since the last accepted report, or since the run started. */
  function Streak(log: seq<Event>, run: nat): (n: nat)
    requires HasClaim(log, run)
  {
    var e, before := log[|log| - 1], log[..|log| - 1];
    if e.run != run then Streak(before, run)
    else
      match e
      case Claimed(_, _, cursor, _) => cursor.emptyCount
      case Started(_) => 0
      case Renewed(_, _) => Streak(before, run)
      case Ended(_) => Streak(before, run)
      case Probed(_, _, o, accepted) =>
        if accepted then 0 else if o.status.Empty? then Streak(before, run) + 1 else Streak(before, run)
  }

  /** The time of the last accepted report that had one. */
  function LastTime(log: seq<Event>, run: nat): (t: Option<int>)
    requires HasClaim(log, run)
  {
    var e, before := log[|log| - 1], log[..|log| - 1];
    if e.run == run && e.Claimed? then e.cursor.lastTime
    else if e.run == run && e.Probed? && e.accepted && e.outcome.status.Report? && e.outcome.status.time.Some?
      then e.outcome.status.time
    else LastTime(before, run)
  }

  /** The last accepted report. */
  function LastReport(log: seq<Event>, run: nat): (id: Option<int>)
    requires HasClaim(log, run)
  {
    var e, before := log[|log| - 1], log[..|log| - 1];
    if e.run == run && e.Claimed? then e.cursor.lastSuccess
    else if e.run == run && e.Probed? && e.accepted then Some(e.probe)
    else LastReport(before, run)
  }

  /** A failure, a deferred stop, a refused report, or an empty answer that fills the threshold. */
  predicate Stops(log: seq<Event>, run: nat, threshold: nat)
    requires HasClaim(log, run) && log[|log| - 1].Probed? && log[|log| - 1].run == run
  {
    var e := log[|log| - 1];
    match e.outcome.status
    case Report(_) => !e.accepted || e.outcome.deferredStop != ""
    case Empty => Streak(log, run) >= threshold
    case Failed(_) => true
  }

  predicate Stopped(log: seq<Event>, run: nat, threshold: nat)
    requires HasClaim(log, run)
  {
    var e, before := log[|log| - 1], log[..|log| - 1];
    if e.run == run && e.Claimed? then StartOf(e.cursor, e.config).None?
    else (e.run == run && e.Probed? && Stops(log, run, threshold)) || Stopped(before, run, threshold)
  }

  /** The run goes on: it has a next ID, requests left, and no reason to stop. */
  predicate GoesOn(log: seq<Event>, run: nat)
    requires HasClaim(log, run)
  {
    var config, start, n := ClaimOf(log, run).config, Origin(log, run), |Asked(log, run)|;
    && start.Some? && 1 <= start.value + n <= MAX_ID && n < config.maxRequests
    && !Stopped(log, run, config.emptyThreshold)
  }

  // ---- Every worker knows what the log says ----

  predicate Tells(wk: Worker, log: seq<Event>, run: nat)
    requires HasClaim(log, run)
  {
    var config, start, n := ClaimOf(log, run).config, Origin(log, run), |Asked(log, run)|;
    && wk.config == config && wk.requests == n
    && wk.cursor.emptyCount == Streak(log, run)
    && wk.cursor.lastTime == LastTime(log, run) && wk.cursor.lastSuccess == LastReport(log, run)
    && (wk.stop != "" <==> Stopped(log, run, config.emptyThreshold))
    && (wk.stop == "" ==> start.Some? && wk.next == Some(start.value + n))
  }

  predicate RunTells(w: World, r: nat)
  {
    && (!HasClaim(w.log, r) ==> Asked(w.log, r) == [])
    && (r in w.workers && Live(w.db, r) ==> HasClaim(w.log, r) && Tells(w.workers[r], w.log, r))
  }

  /** A probe asks the next ID of a run that goes on, and accepts a report unless its time is earlier
      than that of an accepted one. */
  predicate LawfulProbe(log: seq<Event>, e: Event)
    requires e.Probed?
  {
    && HasClaim(log, e.run) && GoesOn(log, e.run)
    && e.probe == Origin(log, e.run).value + |Asked(log, e.run)|
    && (e.accepted <==>
        && e.outcome.status.Report?
        && !(e.outcome.status.time.Some? && LastTime(log, e.run).Some?
             && e.outcome.status.time.value < LastTime(log, e.run).value))
  }

  predicate LawfulLog(log: seq<Event>)
  {
    log != [] ==>
      && (log[|log| - 1].Probed? ==> LawfulProbe(log[..|log| - 1], log[|log| - 1]))
      && (log[|log| - 1].Claimed? ==> Asked(log[..|log| - 1], log[|log| - 1].run) == [])
      && LawfulLog(log[..|log| - 1])
  }

  ghost predicate AllTell(w: World)
  {
    LawfulLog(w.log) && forall r :: RunTells(w, r)
  }

  lemma OtherRun(log: seq<Event>, e: Event, r: nat)
    requires e.run != r
    ensures Asked(log + [e], r) == Asked(log, r) && (HasClaim(log + [e], r) <==> HasClaim(log, r))
    ensures HasClaim(log, r) ==>
      && ClaimOf(log + [e], r) == ClaimOf(log, r) && Streak(log + [e], r) == Streak(log, r)
      && LastTime(log + [e], r) == LastTime(log, r) && LastReport(log + [e], r) == LastReport(log, r)
      && forall t: nat :: Stopped(log + [e], r, t) == Stopped(log, r, t)
  {
    Appended(log, e);
  }

  lemma OthersTell(w: World, w': World, e: Event, r: nat)
    requires RunTells(w, r) && w'.log == w.log + [e] && e.run != r
    requires r in w'.workers && Live(w'.db, r) ==> r in w.workers && Live(w.db, r) && w'.workers[r] == w.workers[r]
    ensures RunTells(w', r)
  {
    OtherRun(w.log, e, r);
  }

  lemma ClaimTells(w: World, config: Config, now: int, createdAt: int)
    requires Inv(w) && AllTell(w)
    ensures AllTell(ClaimStep(w, config, now, createdAt))
  {
    var db := Recovered(w.db, now);
    var w' := ClaimStep(w, config, now, createdAt);
    if SomeRunning(db) {
      assert w' == w;
    } else {
      var e := Claimed(db.nextRun, config, db.cursor, createdAt);
      Appended(w.log, e);
      NoClaimYet(w.log, db.nextRun);
      assert RunTells(w, db.nextRun);
      forall r ensures RunTells(w', r) {
        assert RunTells(w, r);
        if r != db.nextRun {
          assert r in w'.db.runs ==> !w'.db.runs[r].status.Running?;
          OthersTell(w, w', e, r);
        }
      }
    }
  }

  lemma StartTells(w: World, run: nat)
    requires Inv(w) && AllTell(w) && run in w.workers && Live(w.db, run)
    ensures AllTell(Step(w, Start(run)))
  {
    var w' := Step(w, Start(run));
    Appended(w.log, Started(run));
    forall r ensures RunTells(w', r) {
      assert RunTells(w, r);
      if r != run {
        OthersTell(w, w', Started(run), r);
      }
    }
  }

  lemma NotedTells(wk: Worker, log: seq<Event>, run: nat, o: Outcome)
    requires HasClaim(log, run) && Tells(wk, log, run) && Continues(wk)
    ensures var e := Probed(run, wk.next.value, o, Accepts(wk, o.status));
      && LawfulProbe(log, e) && HasClaim(log + [e], run) && Tells(Record(wk, wk.next.value, o), log + [e], run)
  {
    var e := Probed(run, wk.next.value, o, Accepts(wk, o.status));
    Appended(log, e);
    assert Asked(log + [e], run) == Asked(log, run) + [wk.next.value];
  }

  lemma ProbeTells(w: World, run: nat, o: Outcome)
    requires Inv(w) && AllTell(w) && run in w.workers && Live(w.db, run) && Continues(w.workers[run])
    ensures AllTell(Step(w, Probe(run, o)))
  {
    hide Tells, LawfulProbe, Record, Noted;
    var wk := w.workers[run];
    var e := Probed(run, wk.next.value, o, Accepts(wk, o.status));
    var w' := Step(w, Probe(run, o));
    assert RunTells(w, run);
    NotedTells(wk, w.log, run, o);
    Appended(w.log, e);
    forall r ensures RunTells(w', r) {
      assert RunTells(w, r);
      if r != run {
        OthersTell(w, w', e, r);
      }
    }
  }

  lemma LeaseEvent(w: World, w': World, e: Event, r: nat)
    requires RunTells(w, r) && w'.log == w.log + [e] && (e.Renewed? || e.Ended?)
    requires r in w'.workers && Live(w'.db, r) ==> r in w.workers && Live(w.db, r) && w'.workers[r] == w.workers[r]
    ensures RunTells(w', r)
  {
    Appended(w.log, e);
  }

  /** Heartbeats and ends say nothing about what is asked. */
  lemma LeaseTells(w: World, a: Action)
    requires Inv(w) && AllTell(w) && (a.Heartbeat? || a.Finish? || a.Fail?) && Step(w, a).log != w.log
    ensures AllTell(Step(w, a))
  {
    hide Inv, RunTells, LawfulProbe;
    var w' := Step(w, a);
    var e := if a.Heartbeat? then Renewed(a.run, a.now) else Ended(a.run);
    assert w'.log == w.log + [e];
    Appended(w.log, e);
    forall r ensures RunTells(w', r) {
      LeaseEvent(w, w', e, r);
    }
  }

  lemma StepTells(w: World, a: Action)
    requires Inv(w) && AllTell(w)
    ensures AllTell(Step(w, a))
  {
    hide Tells, LawfulLog, LawfulProbe, Record;
    var w' := Step(w, a);
    if a.Claim? {
      ClaimTells(w, a.config, a.now, a.createdAt);
    } else if a.Start? && a.run in w.workers && Live(w.db, a.run) {
      StartTells(w, a.run);
    } else if a.Probe? && a.run in w.workers && Live(w.db, a.run) && Continues(w.workers[a.run]) {
      ProbeTells(w, a.run, a.outcome);
    } else if w'.log != w.log {
      LeaseTells(w, a);
    } else {
      forall r ensures RunTells(w', r) {
        assert RunTells(w, r);
      }
    }
  }

  lemma {:induction false} RunTellsAll(w: World, actions: seq<Action>)
    requires Inv(w) && AllTell(w)
    ensures Inv(Run(w, actions)) && AllTell(Run(w, actions))
    decreases |actions|
  {
    if actions != [] {
      StepInv(w, actions[0]);
      StepTells(w, actions[0]);
      RunTellsAll(Step(w, actions[0]), actions[1..]);
    }
  }

  lemma Reached(cursor: Cursor, actions: seq<Action>)
    ensures Inv(Run(Fresh(cursor), actions)) && AllTell(Run(Fresh(cursor), actions))
  {
    RunTellsAll(Fresh(cursor), actions);
  }

  // ---- The claims ----

  lemma {:induction false} LawfulAsks(log: seq<Event>, run: nat, i: nat)
    requires LawfulLog(log) && HasClaim(log, run) && i < |Asked(log, run)|
    ensures Origin(log, run).Some? && Asked(log, run)[i] == Origin(log, run).value + i
    decreases |log|
  {
    var e, before := log[|log| - 1], log[..|log| - 1];
    if (e.run != run || !e.Claimed?) && i < |Asked(before, run)| {
      LawfulAsks(before, run, i);
    }
  }

  /** The probes of a run are the IDs from where it began, one after the other. */
  lemma AsksConsecutiveIds(cursor: Cursor, actions: seq<Action>, run: nat, i: nat)
    requires i < |Asked(Run(Fresh(cursor), actions).log, run)|
    ensures var log := Run(Fresh(cursor), actions).log;
      HasClaim(log, run) && Origin(log, run).Some? && Asked(log, run)[i] == Origin(log, run).value + i
  {
    Reached(cursor, actions);
    var w := Run(Fresh(cursor), actions);
    assert RunTells(w, run);
    LawfulAsks(w.log, run, i);
  }

  /** The target is where the run began, or one past an ID that it has asked. */
  lemma {:induction false} TargetIsAsked(log: seq<Event>, run: nat)
    requires LawfulLog(log) && HasClaim(log, run)
    ensures Target(log, run) == Origin(log, run)
            || (Target(log, run).Some? && Origin(log, run).Some?
                && Origin(log, run).value < Target(log, run).value <= Origin(log, run).value + |Asked(log, run)|)
    decreases |log|
  {
    var e, before := log[|log| - 1], log[..|log| - 1];
    if e.run != run || !e.Claimed? {
      TargetIsAsked(before, run);
    }
  }

  /** Between the start of a run and the position that it stands for, every ID has been asked by it.
      FinishLandsOnTarget and RecoveryLandsOnTarget say when the row is left at that position. */
  lemma NothingSkipped(cursor: Cursor, actions: seq<Action>, run: nat, id: int)
    requires HasClaim(Run(Fresh(cursor), actions).log, run)
    requires var log := Run(Fresh(cursor), actions).log;
      Origin(log, run).Some? && Target(log, run).Some? && Origin(log, run).value <= id < Target(log, run).value
    ensures id in Asked(Run(Fresh(cursor), actions).log, run)
  {
    Reached(cursor, actions);
    var log := Run(Fresh(cursor), actions).log;
    TargetIsAsked(log, run);
    LawfulAsks(log, run, id - Origin(log, run).value);
  }

  /** The loop goes on exactly while the log says so: fewer requests than allowed, the next ID in range,
      and neither a failure, a deferred stop, a report out of order nor a full streak of empty IDs. */
  lemma StopsExactly(cursor: Cursor, actions: seq<Action>, run: nat)
    requires var w := Run(Fresh(cursor), actions); run in w.workers && Live(w.db, run)
    ensures var w := Run(Fresh(cursor), actions);
      HasClaim(w.log, run) && (Continues(w.workers[run]) <==> GoesOn(w.log, run))
  {
    Reached(cursor, actions);
    assert RunTells(Run(Fresh(cursor), actions), run);
  }

  lemma {:induction false} LawfulAt(log: seq<Event>, k: nat)
    requires LawfulLog(log) && k < |log|
    ensures log[k].Probed? ==> LawfulProbe(log[..k], log[k])
  {
    if k < |log| - 1 {
      LawfulAt(log[..|log| - 1], k);
      assert log[..|log| - 1][..k] == log[..k];
    }
  }

  /** A report is accepted exactly if its time is not earlier than that of the last accepted one, and
      the ID asked is the next one. */
  lemma ProbesAreLawful(cursor: Cursor, actions: seq<Action>, k: nat)
    requires var log := Run(Fresh(cursor), actions).log; k < |log| && log[k].Probed?
    ensures var log := Run(Fresh(cursor), actions).log; LawfulProbe(log[..k], log[k])
  {
    Reached(cursor, actions);
    LawfulAt(Run(Fresh(cursor), actions).log, k);
  }

  /** While a worker owns the running run the row says what the log does: the last accepted report, its
      time, the streak of empty IDs, and with no reason to stop the next ID. */
  lemma RowTellsTheRun(cursor: Cursor, actions: seq<Action>, run: nat)
    requires var w := Run(Fresh(cursor), actions); run in w.workers && Live(w.db, run)
    ensures var w := Run(Fresh(cursor), actions); var row := w.db.cursor;
      && HasClaim(w.log, run)
      && row.emptyCount == Streak(w.log, run)
      && row.lastTime == LastTime(w.log, run) && row.lastSuccess == LastReport(w.log, run)
      && var config, start := ClaimOf(w.log, run).config, Origin(w.log, run);
      (!Stopped(w.log, run, config.emptyThreshold) ==>
          start.Some? && StartOf(row, config) == Some(start.value + |Asked(w.log, run)|))
  {
    Reached(cursor, actions);
    var w := Run(Fresh(cursor), actions);
    assert RunTells(w, run) && RunHolds(w, run);
  }
}
