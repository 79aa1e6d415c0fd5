/** Who may work on the cursor, and until when, as the log says it. */
module DiscoveryLeases {
  import opened Options
  import opened Discovery
  import opened DiscoveryRuns

  datatype Lease = Lease(run: nat, until: int)

  /** The run that was claimed last, for 90 seconds from its claim or its last heartbeat, until it ends. */
  function Holder(log: seq<Event>): (l: Option<Lease>)
  {
    if log == [] then None
    else
      match log[|log| - 1]
      case Claimed(run, _, _, at) => Some(Lease(run, at + 90_000))
      case Renewed(run, at) => Some(Lease(run, at + 90_000))
      case Ended(_) => None
      case _ => Holder(log[..|log| - 1])
  }

  /** The rows agree: the holder's run and no other is RUNNING, until the same time. */
  ghost predicate Leased(w: World)
  {
    forall r :: r in w.db.runs && w.db.runs[r].status.Running? <==>
      Holder(w.log).Some? && Holder(w.log).value.run == r
  }

  ghost predicate Timed(w: World)
  {
    Holder(w.log).Some? ==>
      var l := Holder(w.log).value;
      l.run in w.db.runs && w.db.runs[l.run] == RunRow(Running, Some(l.run), Some(l.until))
  }

  lemma ClaimLeased(w: World, config: Config, now: int, createdAt: int)
    requires Inv(w) && Leased(w) && Timed(w)
    ensures Leased(ClaimStep(w, config, now, createdAt)) && Timed(ClaimStep(w, config, now, createdAt))
  {
    if !SomeRunning(Recovered(w.db, now)) {
      Appended(w.log, Claimed(w.db.nextRun, config, Recovered(w.db, now).cursor, createdAt));
    }
  }

  lemma StepLeased(w: World, a: Action)
    requires Inv(w) && Leased(w) && Timed(w)
    ensures Leased(Step(w, a)) && Timed(Step(w, a))
  {
    hide Continues, Record;
    var w' := Step(w, a);
    if a.Claim? {
      ClaimLeased(w, a.config, a.now, a.createdAt);
    } else if w'.log != w.log {
      assert w'.log[..|w.log|] == w.log && |w'.log| == |w.log| + 1;
    }
  }

  lemma {:induction false} RunLeased(w: World, actions: seq<Action>)
    requires Inv(w) && Leased(w) && Timed(w)
    ensures Inv(Run(w, actions)) && Leased(Run(w, actions)) && Timed(Run(w, actions))
    decreases |actions|
  {
    if actions != [] {
      StepInv(w, actions[0]);
      StepLeased(w, actions[0]);
      RunLeased(Step(w, actions[0]), actions[1..]);
    }
  }

  lemma Reached(cursor: Cursor, actions: seq<Action>)
    ensures var w := Run(Fresh(cursor), actions); Inv(w) && Leased(w) && Timed(w)
  {
    RunLeased(Fresh(cursor), actions);
  }

  /** A claim is accepted exactly when nobody holds the lease or its time is over, and then it begins
      from the row, with the empty ID of a dead holder asked again. */
  lemma ClaimAcceptedExactly(cursor: Cursor, actions: seq<Action>, config: Config, now: int, createdAt: int)
    ensures var w := Run(Fresh(cursor), actions);
      var w', l, row := Step(w, Claim(config, now, createdAt)), Holder(w.log), w.db.cursor;
      if l.Some? && now < l.value.until then w' == w
      else
        var next := if l.Some? && row.provisional.Some? then row.provisional else row.nextProbe;
        var provisional := if l.Some? then None else row.provisional;
        var begun := row.(nextProbe := next, provisional := provisional);
        w'.log == w.log + [Claimed(w.db.nextRun, config, begun, createdAt)]
  {
    Reached(cursor, actions);
    var w := Run(Fresh(cursor), actions);
    if Holder(w.log).Some? {
      var l := Holder(w.log).value;
      var db := Recovered(w.db, now);
      assert Expired(w.db.runs[l.run], now) <==> l.until <= now;
      if now < l.until {
        assert db.runs[l.run].status.Running?;
      } else {
        assert SomeExpired(w.db, now);
      }
    }
  }

  /** A worker's heartbeat, start, end or probe takes effect exactly while its run holds the lease, also
      after its time, as long as nobody else has claimed. */
  lemma WorkerActsExactly(cursor: Cursor, actions: seq<Action>, a: Action)
    requires !a.Claim? && !a.Crash? && a.run in Run(Fresh(cursor), actions).workers
    requires a.Probe? ==> Continues(Run(Fresh(cursor), actions).workers[a.run])
    ensures var w := Run(Fresh(cursor), actions);
      if Holder(w.log).Some? && Holder(w.log).value.run == a.run then |Step(w, a).log| == |w.log| + 1
      else Step(w, a) == Gone(w, a.run)
  {
    Reached(cursor, actions);
  }
}
