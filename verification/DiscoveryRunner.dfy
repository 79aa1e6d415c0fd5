/** The worker of the consecutive-ID collector and the rows it updates in place. */
module DiscoveryRunner {
  import opened Options
  import opened Discovery
  import opened DiscoveryRuns

  /** The cursor row and the run rows of that cursor. */
  class Rows {
    var cursor: Cursor
    var runs: map<nat, RunRow>
    var nextRun: nat

    ghost function Tables(): (db: Database)
      reads this
    {
      Database(cursor, runs, nextRun)
    }

    constructor (row: Cursor)
      ensures Tables() == Fresh(row).db
    {
      cursor, runs, nextRun := row, map[], 0;
    }

    /** What the transactions of other workers leave. */
    method Become(db: Database)
      modifies this
      ensures Tables() == db
    {
      cursor, runs, nextRun := db.cursor, db.runs, db.nextRun;
    }

    /** `_recover_orphaned_runs`: one filtered update, then the cursor. */
    method RecoverOrphans(now: int)
      modifies this
      ensures Tables() == Recovered(old(Tables()), now)
    {
      var orphans := set r | r in runs && Expired(runs[r], now);
      ExpiredSet(Tables(), now, orphans);
      runs := map r | r in runs :: if r in orphans then RunRow(FailedRun, None, None) else runs[r];
      if orphans != {} && cursor.provisional.Some? {
        cursor := cursor.(nextProbe := cursor.provisional, provisional := None);
      }
    }
  }

  lemma ExpiredSet(db: Database, now: int, orphans: set<nat>)
    requires orphans == set r | r in db.runs && Expired(db.runs[r], now)
    ensures SomeExpired(db, now) <==> orphans != {}
  {
    if SomeExpired(db, now) {
      var r :| r in db.runs && Expired(db.runs[r], now);
      assert r in orphans;
    } else {
      assert forall r :: r !in orphans;
    }
  }

  class Runner {
    const rows: Rows
    const config: Config
    var run: nat
    var cursor: Cursor
    var firstEmpty: Option<int>
    var next: Option<int>
    var requests: nat
    var stop: string

    ghost function Memory(): (wk: Worker)
      reads this
    {
      Worker(config, cursor, firstEmpty, next, requests, stop)
    }

    constructor (rows: Rows, config: Config)
      ensures this.rows == rows && this.config == config
    {
      this.rows, this.config := rows, config;
      run, cursor, firstEmpty, next := 0, Cursor(None, None, 0, None, None), None, None;
      requests, stop := 0, "";
    }

    /** The claiming transaction of `run`; a claim that finds a running run rolls back. */
    method Claim(now: int, createdAt: int) returns (claimed: bool)
      modifies this, rows
      ensures claimed == !SomeRunning(Recovered(old(rows.Tables()), now))
      ensures !claimed ==> rows.Tables() == old(rows.Tables())
      ensures claimed ==> rows.Tables() == Created(Recovered(old(rows.Tables()), now), createdAt)
      ensures claimed ==> Memory() == Claimant(Recovered(old(rows.Tables()), now), config)
                          && run == old(rows.nextRun)
    {
      var cursorBefore, runsBefore := rows.cursor, rows.runs;
      rows.RecoverOrphans(now);
      claimed := !exists r :: r in rows.runs && rows.runs[r].status.Running?;
      if !claimed {
        rows.cursor, rows.runs := cursorBefore, runsBefore;
        return;
      }
      run := rows.nextRun;
      rows.runs := rows.runs[run := RunRow(Running, Some(run), Some(createdAt + RUN_LEASE_MS))];
      rows.nextRun := run + 1;
      cursor, firstEmpty, requests, stop := rows.cursor, None, 0, "";
      next := cursor.nextProbe;
      if next.None? && cursor.lastSuccess.Some? {
        next := Some(cursor.lastSuccess.value + 1);
      }
      if next.None? {
        next := config.startId;
      }
      if next.None? {
        stop := "missing_start_id";
      }
    }

    method Owned() returns (live: bool)
      ensures live == Live(rows.Tables(), run)
    {
      live := run in rows.runs && rows.runs[run].status.Running? && rows.runs[run].owner == Some(run);
    }

    method Heartbeat(now: int) returns (live: bool)
      modifies rows`runs
      ensures live == Live(old(rows.Tables()), run)
      ensures rows.runs == if live then old(rows.runs)[run := old(rows.runs)[run].(expires := Some(now + RUN_LEASE_MS))]
                           else old(rows.runs)
    {
      live := Owned();
      if live {
        rows.runs := rows.runs[run := rows.runs[run].(expires := Some(now + RUN_LEASE_MS))];
      }
    }

    /** `_record`: edits the copy, then writes the whole copy back. */
    method RecordOutcome(probe: int, o: Outcome) returns (live: bool)
      modifies this, rows`cursor
      ensures live == Live(old(rows.Tables()), run) && run == old(run)
      ensures !live ==> Memory() == old(Memory()) && rows.cursor == old(rows.cursor)
      ensures live ==> Memory() == Record(old(Memory()), probe, o) && rows.cursor == cursor
    {
      live := Owned();
      if !live {
        return;
      }
      requests := requests + 1;
      match o.status {
        case Report(time) =>
          if cursor.lastTime.Some? && time.Some? && time.value < cursor.lastTime.value {
            stop := "time_reversed";
          } else {
            cursor := cursor.(lastSuccess := Some(probe));
            if time.Some? {
              cursor := cursor.(lastTime := time);
            }
            cursor := cursor.(emptyCount := 0);
            firstEmpty := None;
            cursor := cursor.(provisional := None);
            cursor := cursor.(nextProbe := Some(probe + 1));
          }
          if o.deferredStop != "" {
            stop := o.deferredStop;
          }
        case Empty =>
          if firstEmpty.None? {
            firstEmpty := Some(probe);
            cursor := cursor.(provisional := Some(probe));
          }
          cursor := cursor.(emptyCount := cursor.emptyCount + 1);
          cursor := cursor.(nextProbe := Some(probe + 1));
          if cursor.emptyCount >= config.emptyThreshold {
            stop := "empty_threshold";
          }
        case Failed(code) =>
          stop := code;
      }
      rows.cursor := cursor;
      next := cursor.nextProbe;
    }

    /** `_finish`: provisional empty IDs are asked again by the next run. */
    method FinishRun() returns (live: bool)
      modifies this`cursor, rows`cursor, rows`runs
      ensures live == Live(old(rows.Tables()), run)
      ensures live ==> rows.cursor == FinishedCursor(old(Memory()))
                       && rows.runs == old(rows.runs)[run := RunRow(Stopped, None, None)]
      ensures !live ==> rows.cursor == old(rows.cursor) && rows.runs == old(rows.runs)
    {
      live := Owned();
      if live {
        if firstEmpty.Some? {
          cursor := cursor.(nextProbe := firstEmpty);
          cursor := cursor.(provisional := None);
        }
        rows.cursor := cursor;
        rows.runs := rows.runs[run := RunRow(Stopped, None, None)];
      }
    }

    /** The transaction before the loop. */
    method StartRun() returns (live: bool)
      modifies this`cursor, rows`cursor
      ensures live == Live(old(rows.Tables()), run)
      ensures cursor == if live then old(cursor).(emptyCount := 0) else old(cursor)
      ensures rows.cursor == if live then old(rows.cursor).(emptyCount := 0) else old(rows.cursor)
    {
      live := Owned();
      if live {
        cursor := cursor.(emptyCount := 0);
        rows.cursor := rows.cursor.(emptyCount := 0);
      }
    }

    /** The world that this worker shares with the others, and its own part of it. */
    ghost predicate In(w: World)
      reads this, rows
    {
      rows.Tables() == w.db && (run in w.workers ==> Memory() == w.workers[run])
    }

    /** Others act before a transaction of this worker. */
    method Wait(world: World, others: seq<Action>) returns (meanwhile: World)
      requires DiscoveryRuns.Inv(world) && run in world.workers && In(world) && OthersOnly(others, run)
      modifies rows
      ensures meanwhile == Run(world, others) && run == old(run)
      ensures DiscoveryRuns.Inv(meanwhile) && run in meanwhile.workers && In(meanwhile)
    {
      OthersKeepWorker(world, others, run);
      RunInv(world, others);
      meanwhile := Run(world, others);
      rows.Become(meanwhile.db);
    }

    /** One round of the loop: the heartbeat, the request and its recording. */
    method TakeTurn(world: World, turn: Turn) returns (meanwhile: World)
      requires DiscoveryRuns.Inv(world) && run in world.workers && In(world) && Continues(Memory())
      requires OthersOnly(turn.others, run) && OthersOnly(turn.later, run)
      modifies this, rows
      ensures meanwhile == Taken(world, run, turn) && run == old(run)
      ensures DiscoveryRuns.Inv(meanwhile) && In(meanwhile)
    {
      hide DiscoveryRuns.Inv, Continues, Record;
      meanwhile := Wait(world, turn.others);
      StepInv(meanwhile, Action.Heartbeat(run, turn.now));
      var live := Heartbeat(turn.now);
      meanwhile := Step(meanwhile, Action.Heartbeat(run, turn.now));
      if !live {
        return;
      }
      meanwhile := Wait(meanwhile, turn.later);
      StepInv(meanwhile, Probe(run, turn.outcome));
      RunsOn(Memory());
      live := RecordOutcome(next.value, turn.outcome);
      meanwhile := Step(meanwhile, Probe(run, turn.outcome));
    }

    /** `_run_locked` from its first transaction on, while the others act between the transactions;
        when `turns` runs out before the loop ends, the worker has died. */
    method RunLocked(world: World, turns: seq<Turn>, last: seq<Action>) returns (meanwhile: World)
      requires DiscoveryRuns.Inv(world) && run in world.workers && In(world)
      requires OthersOnly(last, run)
      requires forall i :: 0 <= i < |turns| ==> OthersOnly(turns[i].others, run) && OthersOnly(turns[i].later, run)
      modifies this, rows
      ensures meanwhile == Turned(Step(world, Start(run)), run, turns, last)
      ensures rows.Tables() == meanwhile.db
    {
      hide DiscoveryRuns.Inv, Taken;
      StepInv(world, Start(run));
      var live := StartRun();
      meanwhile := Step(world, Start(run));
      if !live {
        return;
      }
      ghost var first := meanwhile;
      var used := 0;
      assert turns[0..] == turns;
      while used < |turns| && live && next.Some? && 1 <= next.value <= MAX_ID && requests < config.maxRequests
            && stop == ""
        invariant used <= |turns| && run == old(run)
        invariant DiscoveryRuns.Inv(meanwhile) && In(meanwhile) && (live <==> run in meanwhile.workers)
        invariant Turned(meanwhile, run, turns[used..], last) == Turned(first, run, turns, last)
        decreases |turns| - used
      {
        assert turns[used..][1..] == turns[used + 1..];
        meanwhile := TakeTurn(meanwhile, turns[used]);
        live := run in meanwhile.workers;
        used := used + 1;
      }
      if live && !(next.Some? && 1 <= next.value <= MAX_ID && requests < config.maxRequests && stop == "") {
        meanwhile := Wait(meanwhile, last);
        live := FinishRun();
        meanwhile := Step(meanwhile, Finish(run));
      }
    }
  }

  /** One round of the loop: what others do before the heartbeat and before the recording, the clock of
      the heartbeat, and the answer. */
  datatype Turn = Turn(others: seq<Action>, now: int, later: seq<Action>, outcome: Outcome)

  predicate OthersOnly(actions: seq<Action>, run: nat)
  {
    forall i :: 0 <= i < |actions| ==> actions[i].Claim? || actions[i].run != run
  }

  lemma {:induction false} OthersKeepWorker(w: World, others: seq<Action>, run: nat)
    requires DiscoveryRuns.Inv(w) && run in w.workers && OthersOnly(others, run)
    ensures run in Run(w, others).workers && Run(w, others).workers[run] == w.workers[run]
    decreases |others|
  {
    if others != [] {
      StepInv(w, others[0]);
      OthersKeepWorker(Step(w, others[0]), others[1..], run);
    }
  }

  lemma RunsOn(wk: Worker)
    ensures Continues(wk) ==> wk.next.Some?
  {
  }

  function Taken(w: World, run: nat, turn: Turn): World
  {
    var w1 := Step(Run(w, turn.others), Action.Heartbeat(run, turn.now));
    if run in w1.workers then Step(Run(w1, turn.later), Probe(run, turn.outcome)) else w1
  }

  /** A worker's turns, one after the other, until it finishes, has lost its lease or dies. */
  function Turned(w: World, run: nat, turns: seq<Turn>, last: seq<Action>): World
    decreases |turns|
  {
    if run !in w.workers then w
    else if !Continues(w.workers[run]) then Step(Run(w, last), Finish(run))
    else if turns == [] then w
    else Turned(Taken(w, run, turns[0]), run, turns[1..], last)
  }

  lemma ThenStep(w: World, a: seq<Action>, last: Action)
    ensures Run(w, a + [last]) == Step(Run(w, a), last)
  {
    RunJoined(w, a, [last]);
    assert [last][1..] == [];
  }

  /** What `RunLocked` leaves, rows and all, is left by one of the runs that the claims are about. */
  lemma {:induction false} TurnedIsRun(w: World, run: nat, turns: seq<Turn>, last: seq<Action>)
      returns (actions: seq<Action>)
    ensures Turned(w, run, turns, last) == Run(w, actions)
    decreases |turns|
  {
    if run !in w.workers || (Continues(w.workers[run]) && turns == []) {
      actions := [];
    } else if !Continues(w.workers[run]) {
      actions := last + [Finish(run)];
      ThenStep(w, last, Finish(run));
    } else {
      var turn := turns[0];
      var beat := turn.others + [Action.Heartbeat(run, turn.now)];
      ThenStep(w, turn.others, Action.Heartbeat(run, turn.now));
      var w1 := Run(w, beat);
      var probe := if run in w1.workers then turn.later + [Probe(run, turn.outcome)] else [];
      ThenStep(w1, turn.later, Probe(run, turn.outcome));
      RunJoined(w, beat, probe);
      var rest := TurnedIsRun(Taken(w, run, turn), run, turns[1..], last);
      RunJoined(w, beat + probe, rest);
      actions := beat + probe + rest;
    }
  }
}
