/** How long an empty ID is left alone. */
module FreshnessDelays {
  import opened Options
  import opened Ranges
  import opened Freshness
  import opened FreshnessScan
  import opened FreshnessSafety
  import opened FreshnessRuns
  import opened FreshnessSearch

  // ---- The dictionary holds what was put in ----

  /** Each ID has one entry. */
  predicate Distinct(d: seq<Retry>)
  {
    d != [] ==> d[0].id !in Keys(d[1..]) && Distinct(d[1..])
  }

  lemma {:induction false} NoEntry(d: seq<Retry>, id: int)
    ensures id !in Keys(d) ==> RetryAt(d, id) == 0
  {
    if d != [] {
      NoEntry(d[1..], id);
    }
  }

  lemma {:induction false} PutExactly(d: seq<Retry>, id: int, at: int)
    requires Distinct(d)
    ensures var r := Put(d, id, at);
      && Distinct(r) && Keys(r) == Keys(d) + {id} && |r| == (if id in Keys(d) then |d| else |d| + 1)
      && forall k :: RetryAt(r, k) == if k == id then at else RetryAt(d, k)
  {
    if d != [] {
      PutExactly(d[1..], id, at);
    }
  }

  lemma {:induction false} PopExactly(d: seq<Retry>, id: int)
    requires Distinct(d)
    ensures var r := Pop(d, id);
      && Distinct(r) && Keys(r) == Keys(d) - {id} && forall k :: RetryAt(r, k) == if k == id then 0 else RetryAt(d, k)
  {
    if d != [] {
      PopExactly(d[1..], id);
      NoEntry(Pop(d[1..], id), id);
      if d[0].id == id {
        NoEntry(d[1..], id);
      }
    }
  }

  lemma {:induction false} EntryAt(d: seq<Retry>, i: nat)
    requires Distinct(d) && i < |d|
    ensures d[i].id in Keys(d) && RetryAt(d, d[i].id) == d[i].at
  {
    if i > 0 {
      EntryAt(d[1..], i - 1);
    }
  }

  lemma {:induction false} EntryOf(d: seq<Retry>, id: int) returns (i: nat)
    requires id in Keys(d)
    ensures i < |d| && d[i].id == id
  {
    if d[0].id == id {
      i := 0;
    } else {
      i := EntryOf(d[1..], id);
      i := i + 1;
    }
  }

  lemma {:induction false} OldestIsLeast(d: seq<Retry>, i: nat)
    requires i < |d|
    ensures d[Oldest(d)].at <= d[i].at && (i < Oldest(d) ==> d[Oldest(d)].at < d[i].at)
  {
    if |d| > 1 {
      OldestIsLeast(d[1..], if i > 0 then i - 1 else 0);
    }
  }

  lemma {:induction false} DropExactly(d: seq<Retry>, k: nat)
    requires Distinct(d) && k < |d|
    ensures var r := d[..k] + d[k + 1..];
      && Distinct(r) && Keys(r) == Keys(d) - {d[k].id}
      && forall id :: RetryAt(r, id) == if id == d[k].id then 0 else RetryAt(d, id)
  {
    var r := d[..k] + d[k + 1..];
    if k == 0 {
      assert r == d[1..];
      NoEntry(r, d[0].id);
    } else {
      DropExactly(d[1..], k - 1);
      EntryAt(d[1..], k - 1);
      assert r[0] == d[0] && r[1..] == d[1..][..k - 1] + d[1..][k..];
    }
  }

  /** The retry times after `id` was put off until `at`. */
  function TimeAfter(d: seq<Retry>, id: int, at: int, k: int): int
  {
    if k == id then at else RetryAt(d, k)
  }

  /** With room for it the ID gets its time and no other changes. In a full dictionary one entry with the
      smallest time is dropped, and again no other changes. */
  lemma PostponedExactly(d: seq<Retry>, id: int, at: int) returns (victim: Option<int>)
    requires Distinct(d) && |d| <= 128
    ensures var r := Postponed(d, id, at);
      && Distinct(r)
      && (victim.None? <==> id in Keys(d) || |d| < 128)
      && Keys(r) == (if victim.Some? then Keys(d) + {id} - {victim.value} else Keys(d) + {id})
      && (forall k :: k in Keys(r) ==> RetryAt(r, k) == TimeAfter(d, id, at, k))
      && (victim.Some? ==>
          && victim.value in Keys(d) + {id}
          && forall k :: k in Keys(d) + {id} ==> TimeAfter(d, id, at, victim.value) <= TimeAfter(d, id, at, k))
  {
    var p := Put(d, id, at);
    PutExactly(d, id, at);
    victim := None;
    if |p| > MAX_DEFERRED {
      var v := Oldest(p);
      victim := Some(p[v].id);
      EntryAt(p, v);
      DropExactly(p, v);
      forall k | k in Keys(p) ensures RetryAt(p, p[v].id) <= RetryAt(p, k) {
        var i := EntryOf(p, k);
        EntryAt(p, i);
        OldestIsLeast(p, i);
      }
    }
  }

  // ---- One step ----

  function Delays(w: World): seq<Retry>
  {
    if w.cursor.strategy.Some? then w.cursor.strategy.value.deferred else []
  }

  function Waiting(w: World): set<int>
  {
    if w.cursor.strategy.Some? then Ids(w.cursor.strategy.value.pending) else {}
  }

  /** The step scans that ID. */
  predicate Scans(w: World, a: Action, id: int)
    requires Tidy(w)
  {
    AsksNow(w, a) && PlanProbe(w.round.value, a.reply.now) == Ask(id, Scan)
  }

  /** The step puts an ID off that has no entry yet while the dictionary is full, and no entry, with the
      new one, has a smaller time than that of `id`. */
  predicate Evicts(w: World, a: Action, id: int)
    requires Tidy(w)
  {
    && AsksNow(w, a) && PlanProbe(w.round.value, a.reply.now).phase.Scan? && a.reply.outcome.status.Empty?
    && var d, probe, at := Delays(w), PlanProbe(w.round.value, a.reply.now).id, a.reply.recordedAt + 1_800_000;
    && probe !in Keys(d) && |d| == 128
    && TimeAfter(d, probe, at, id) <= at
    && forall k :: k in Keys(d) ==> TimeAfter(d, probe, at, id) <= RetryAt(d, k)
  }

  /** The deferred IDs that a scan leaves. */
  lemma ScanLeavesDelays(w: World, r: Round, probe: int, reply: Reply)
    requires Tidy(w) && w.round == Some(r)
    ensures var d, o := r.state.deferred, reply.outcome;
      Delays(Recorded(w, r, probe, Scan, reply))
      == if o.status.Empty? then Postponed(d, probe, reply.recordedAt + 1_800_000)
         else if o.status.Report? && o.deferredStop == "" then Pop(d, probe) else d
  {
    hide Postponed, Pop, Removed;
  }

  /** An empty scan leaves its ID alone for 30 minutes from the time it was recorded. */
  lemma EmptyScanDefers(w: World, a: Action, id: int)
    requires Inv(w) && Tidy(w) && Distinct(Delays(w)) && Scans(w, a, id) && a.reply.outcome.status.Empty?
    requires !Evicts(w, a, id)
    ensures var d := Delays(Step(w, a)); id in Keys(d) && RetryAt(d, id) == a.reply.recordedAt + 1_800_000
  {
    hide Recorded, Good, Postponed;
    var at := a.reply.recordedAt + 1_800_000;
    var victim := PostponedExactly(Delays(w), id, at);
    ScanLeavesDelays(w, w.round.value, id, a.reply);
  }

  lemma {:induction false} AllFinishedDelays(s: State, ids: seq<int>, id: int)
    requires Distinct(s.deferred) && Canonical(s.pending)
    ensures var s' := AllFinished(s, ids);
      && Distinct(s'.deferred) && Canonical(s'.pending)
      && (id in Ids(s'.pending) ==>
          id in Ids(s.pending) && RetryAt(s'.deferred, id) == RetryAt(s.deferred, id)
          && (id in Keys(s'.deferred) <==> id in Keys(s.deferred)))
    decreases |ids|
  {
    if ids != [] {
      PopExactly(s.deferred, ids[0]);
      RemovedFacts(s.pending, ids[0]);
      AllFinishedDelays(Finished(s, ids[0]), ids[1..], id);
    }
  }

  lemma LocateDelays(w: World, r: Round, probe: int, reply: Reply, id: int)
    requires Inv(w) && Tidy(w) && w.round == Some(r) && r.state.phase.Locate? && Askable(r.state.search, probe)
    requires Distinct(r.state.deferred)
    ensures var s' := Recorded(w, r, probe, Locate, reply).round.value.state;
      && Delays(Recorded(w, r, probe, Locate, reply)) == s'.deferred
      && Distinct(s'.deferred)
      && (id in Ids(s'.pending) && id in Keys(r.state.deferred) ==>
          id in Keys(s'.deferred) && RetryAt(s'.deferred, id) == RetryAt(r.state.deferred, id))
  {
    var found := Located(r.state, probe, reply.outcome.status);
    LocatedGood(r.state, w.cursor.lastSuccess, w.events, probe, reply.outcome.status);
    assert found.deferred == r.state.deferred;
    AllFinishedDelays(found, Noted(r.filtered, Locate, probe, reply.outcome), id);
  }

  lemma ScanDelays(w: World, r: Round, probe: int, reply: Reply, id: int)
    requires Inv(w) && Tidy(w) && w.round == Some(r) && Distinct(r.state.deferred)
    ensures var d' := Delays(Recorded(w, r, probe, Scan, reply));
      && Distinct(d')
      && (id != probe && id in Keys(r.state.deferred) ==>
          || (id in Keys(d') && RetryAt(d', id) == RetryAt(r.state.deferred, id))
          || (reply.outcome.status.Empty? && probe !in Keys(r.state.deferred) && |r.state.deferred| == 128
              && RetryAt(r.state.deferred, id) <= reply.recordedAt + 1_800_000
              && forall k :: k in Keys(r.state.deferred) ==>
                   RetryAt(r.state.deferred, id) <= RetryAt(r.state.deferred, k)))
  {
    hide Recorded, Good, Postponed, Pop;
    var d := r.state.deferred;
    var at := reply.recordedAt + 1_800_000;
    PopExactly(d, probe);
    ScanLeavesDelays(w, r, probe, reply);
    if reply.outcome.status.Empty? {
      var victim := PostponedExactly(d, probe, at);
      if victim == Some(id) && id != probe {
        assert TimeAfter(d, probe, at, id) <= TimeAfter(d, probe, at, probe);
        forall k | k in Keys(d) ensures RetryAt(d, id) <= RetryAt(d, k) {
          assert k != probe ==> TimeAfter(d, probe, at, id) <= TimeAfter(d, probe, at, k);
        }
      }
    }
  }

  lemma LoadedDelays(w: World, startId: Option<int>)
    requires Validated(w.cursor, startId).Ok?
    ensures Reopened(Validated(w.cursor, startId).value).deferred == Delays(w)
  {
  }

  /** A delay stays as it is while its ID is pending and neither scanned nor evicted. */
  lemma StepKeepsDelay(w: World, a: Action, id: int)
    requires Inv(w) && Tidy(w) && Distinct(Delays(w))
    ensures Distinct(Delays(Step(w, a)))
    ensures id in Keys(Delays(w)) && !Scans(w, a, id) && !Evicts(w, a, id) && id in Waiting(Step(w, a)) ==>
            id in Keys(Delays(Step(w, a))) && RetryAt(Delays(Step(w, a)), id) == RetryAt(Delays(w), id)
  {
    hide Settled, Located, Noted, Validated, Good;
    if AsksNow(w, a) {
      var r := w.round.value;
      var plan := PlanProbe(r, a.reply.now);
      if plan.phase.Locate? {
        StoredSearch(w);
        PlanLocateFacts(r, w.cursor.lastSuccess);
        LocateDelays(w, r, plan.id, a.reply, id);
      } else {
        ScanDelays(w, r, plan.id, a.reply, id);
      }
    } else if a.Begin? && w.round.None? && !w.orphan && Validated(w.cursor, a.startId).Ok? {
      LoadedDelays(w, a.startId);
    }
  }

  // ---- Runs ----

  lemma {:induction false} RunDistinct(w: World, actions: seq<Action>)
    requires Inv(w) && Tidy(w) && Distinct(Delays(w))
    ensures Inv(Run(w, actions)) && Distinct(Delays(Run(w, actions)))
    decreases |actions|
  {
    if actions != [] {
      StepGood(w, actions[0]);
      StepKeepsDelay(w, actions[0], 0);
      RunDistinct(Step(w, actions[0]), actions[1..]);
    }
  }

  /** Meanwhile the ID stays pending and is neither scanned nor evicted. */
  predicate LeftAlone(w: World, actions: seq<Action>, id: int)
    requires Tidy(w)
    decreases |actions|
  {
    actions != [] ==>
      && !Scans(w, actions[0], id) && !Evicts(w, actions[0], id) && id in Waiting(Step(w, actions[0]))
      && LeftAlone(Step(w, actions[0]), actions[1..], id)
  }

  lemma {:induction false} RunKeepsDelay(w: World, actions: seq<Action>, id: int)
    requires Inv(w) && Tidy(w) && Distinct(Delays(w)) && id in Keys(Delays(w)) && LeftAlone(w, actions, id)
    ensures RetryAt(Delays(Run(w, actions)), id) == RetryAt(Delays(w), id)
    decreases |actions|
  {
    if actions != [] {
      StepGood(w, actions[0]);
      StepKeepsDelay(w, actions[0], id);
      RunKeepsDelay(Step(w, actions[0]), actions[1..], id);
    }
  }

  lemma ScannedWhenDue(w: World, a: Action, id: int)
    requires Inv(w) && Tidy(w) && Scans(w, a, id)
    ensures RetryAt(Delays(w), id) <= a.reply.now
  {
    StoredCanonical(w);
    ScanRule(w.round.value, a.reply.now);
  }

  lemma StoredCanonical(w: World)
    requires Inv(w) && w.cursor.strategy.Some?
    ensures Canonical(w.cursor.strategy.value.pending)
  {
  }

  /** Between an empty scan of an ID and its next scan, over all rounds, crashes and recoveries, the clock
      passes 30 minutes, unless a full dictionary gave up the delay. */
  lemma EmptyIdsWait(w: World, before: seq<Action>, scan: Action, after: seq<Action>, again: Action, id: int)
    requires Fresh(w) && Tidy(w) && Scans(Run(w, before), scan, id) && scan.reply.outcome.status.Empty?
    requires !Evicts(Run(w, before), scan, id)
    requires LeftAlone(Step(Run(w, before), scan), after, id)
    requires Scans(Run(Step(Run(w, before), scan), after), again, id)
    ensures scan.reply.recordedAt + 30 * 60 * 1000 <= again.reply.now
  {
    hide LeftAlone, Scans, Evicts, Waiting;
    var m := Run(w, before);
    var m1 := Step(m, scan);
    RunDistinct(w, before);
    ScanIsIterate(m, scan, id);
    EmptyScanDefers(m, scan, id);
    StepGood(m, scan);
    StepKeepsDelay(m, scan, id);
    RunKeepsDelay(m1, after, id);
    RunGood(m1, after);
    ScannedWhenDue(Run(m1, after), again, id);
  }

  lemma ScanIsIterate(w: World, a: Action, id: int)
    requires Tidy(w) && Scans(w, a, id)
    ensures a.Iterate?
  {
  }
}
