/** The global invariant of the latest-first collector, and that each part of a step keeps it:
    whatever the outcomes, budgets, clocks and crashes, no unresolved ID is ever forgotten.

    It links the stored state, the cursor row and the committed events. Every ID up to the
    frontier is pending or resolved by an event; the search bracket lies between the frontier and
    the last report; deferred IDs are pending. The claims that rest on it are in FreshnessRuns.
  */
module FreshnessSafety {
  import opened Options
  import opened Ranges
  import opened Freshness

  // ---- What the committed events prove about an ID ----

  predicate ScanResolves(e: Event, id: int)
  {
    e.probe == id && e.phase.Scan? && e.status.Report? && e.deferredStop == ""
  }

  predicate FilteredIn(e: Event, id: int, run: nat)
  {
    e.probe == id && e.run == run && e.phase.Locate? && e.status == Report(true) && e.deferredStop == ""
  }

  predicate CommitsFrontier(e: Event, run: nat)
  {
    e.run == run && e.phase.Locate? && e.boundary && !e.status.Failed? && e.deferredStop == ""
  }

  ghost predicate Scanned(events: seq<Event>, id: int)
  {
    exists i :: 0 <= i < |events| && ScanResolves(events[i], id)
  }

  ghost predicate Filtered(events: seq<Event>, id: int, run: nat)
  {
    exists i :: 0 <= i < |events| && FilteredIn(events[i], id, run)
  }

  ghost predicate Committed(events: seq<Event>, run: nat)
  {
    exists i :: 0 <= i < |events| && CommitsFrontier(events[i], run)
  }

  /** A committed scan report, or a report excluded by a known value in the very
      round that set the frontier. */
  ghost predicate Resolved(events: seq<Event>, id: int)
  {
    Scanned(events, id) || exists run: nat :: Filtered(events, id, run) && Committed(events, run)
  }

  lemma EventsGrow(events: seq<Event>, e: Event)
    ensures forall id :: Scanned(events, id) ==> Scanned(events + [e], id)
    ensures forall id, run :: Filtered(events, id, run) ==> Filtered(events + [e], id, run)
    ensures forall run :: Committed(events, run) ==> Committed(events + [e], run)
    ensures forall id :: Resolved(events, id) ==> Resolved(events + [e], id)
  {
    var more := events + [e];
    forall id | Scanned(events, id) ensures Scanned(more, id) {
      var i :| 0 <= i < |events| && ScanResolves(events[i], id);
      assert more[i] == events[i];
    }
    forall id, run | Filtered(events, id, run) ensures Filtered(more, id, run) {
      var i :| 0 <= i < |events| && FilteredIn(events[i], id, run);
      assert more[i] == events[i];
    }
    forall run | Committed(events, run) ensures Committed(more, run) {
      var i :| 0 <= i < |events| && CommitsFrontier(events[i], run);
      assert more[i] == events[i];
    }
    forall id | Resolved(events, id) ensures Resolved(more, id) {
      if !Scanned(events, id) {
        var run: nat :| Filtered(events, id, run) && Committed(events, run);
        assert Filtered(more, id, run) && Committed(more, run);
      }
    }
  }

  lemma LastEvent(events: seq<Event>, e: Event, id: int)
    ensures ScanResolves(e, id) ==> Scanned(events + [e], id)
    ensures FilteredIn(e, id, e.run) ==> Filtered(events + [e], id, e.run)
    ensures CommitsFrontier(e, e.run) ==> Committed(events + [e], e.run)
  {
    assert (events + [e])[|events|] == e;
  }

  // ---- Invariants of one stored state ----

  ghost predicate Inside(rs: seq<Range>, lower: int, upper: int)
  {
    forall id :: id in Ids(rs) ==> lower <= id <= upper
  }

  ghost predicate Sound(s: State, last: Option<int>)
  {
    && IsId(s.frontier) && IsId(s.historyStart) && s.historyStart <= s.frontier + 1
    && SearchAcceptable(s, last)
    && (s.phase.Locate? && s.search.upper.Some? ==> s.search.lower + 2 <= s.search.upper.value)
    && Canonical(s.pending) && Inside(s.pending, s.historyStart, s.frontier)
    && DeferredAcceptable(s) && Keys(s.deferred) <= Ids(s.pending)
  }

  /** Every ID up to the frontier is pending or resolved. */
  ghost predicate Accounted(s: State, events: seq<Event>)
  {
    forall id :: s.historyStart <= id <= s.frontier && id !in Ids(s.pending) ==> Resolved(events, id)
  }

  // ---- The deferral dictionary ----

  predicate NonNegative(d: seq<Retry>)
  {
    forall i :: 0 <= i < |d| ==> d[i].at >= 0
  }

  lemma {:induction false} PutFacts(d: seq<Retry>, id: int, at: int)
    requires NonNegative(d) && at >= 0
    ensures Keys(Put(d, id, at)) == Keys(d) + {id} && NonNegative(Put(d, id, at))
  {
    if d != [] && d[0].id != id {
      PutFacts(d[1..], id, at);
    }
  }

  lemma {:induction false} PopFacts(d: seq<Retry>, id: int)
    requires NonNegative(d)
    ensures Keys(Pop(d, id)) == Keys(d) - {id} && NonNegative(Pop(d, id))
  {
    if d != [] {
      PopFacts(d[1..], id);
    }
  }

  lemma {:induction false} DropKeys(d: seq<Retry>, k: nat)
    requires k < |d|
    ensures Keys(d[..k] + d[k + 1..]) <= Keys(d)
    ensures NonNegative(d) ==> NonNegative(d[..k] + d[k + 1..])
  {
    if k == 0 {
      assert d[..k] + d[k + 1..] == d[1..];
    } else {
      DropKeys(d[1..], k - 1);
      assert (d[..k] + d[k + 1..])[1..] == d[1..][..k - 1] + d[1..][k..];
    }
  }

  lemma PostponedFacts(d: seq<Retry>, id: int, at: int)
    requires |d| <= MAX_DEFERRED && NonNegative(d) && at >= 0
    ensures Keys(Postponed(d, id, at)) <= Keys(d) + {id} && NonNegative(Postponed(d, id, at))
  {
    PutFacts(d, id, at);
    var p := Put(d, id, at);
    if |p| > MAX_DEFERRED {
      DropKeys(p, Oldest(p));
    }
  }

  lemma {:induction false} InKeys(d: seq<Retry>, i: nat)
    requires i < |d|
    ensures d[i].id in Keys(d)
  {
    if i > 0 {
      InKeys(d[1..], i - 1);
    }
  }

  lemma DeferredFits(s: State)
    requires |s.deferred| <= MAX_DEFERRED && NonNegative(s.deferred)
    requires IsId(s.historyStart) && IsId(s.frontier) && Inside(s.pending, s.historyStart, s.frontier)
    requires Keys(s.deferred) <= Ids(s.pending)
    ensures DeferredAcceptable(s)
  {
    forall i | 0 <= i < |s.deferred| ensures IsId(s.deferred[i].id) {
      InKeys(s.deferred, i);
    }
  }

  // ---- Loading ----

  lemma MergedSound(rs: seq<Range>, lower: int, upper: int)
    requires WellFormed(rs) && Inside(rs, lower, upper)
    ensures Canonical(Merged(rs)) && |Merged(rs)| <= MAX_RANGES
    ensures Ids(rs) <= Ids(Merged(rs)) && Inside(Merged(rs), lower, upper)
  {
    MergedFacts(rs);
    forall id | id in Ids(Merged(rs)) ensures lower <= id <= upper {
      IdsBounds(Merged(rs), id);
    }
  }

  ghost predicate Good(s: State, last: Option<int>, events: seq<Event>)
  {
    Sound(s, last) && Accounted(s, events)
  }

  /** The invariant of everything stored and of the round in memory. */
  ghost predicate Inv(w: World)
  {
    && (w.cursor.strategy.Some? ==> Good(w.cursor.strategy.value, w.cursor.lastSuccess, w.events))
    && (w.round.Some? ==> w.cursor.strategy == Some(w.round.value.state) && InRound(w.round.value, w.events))
  }

  ghost predicate InRound(r: Round, events: seq<Event>)
  {
    && (r.revalidate.Some? ==> r.state.phase.Locate? && r.state.search.upper == r.revalidate)
    && forall i :: 0 <= i < |r.filtered| ==> Filtered(events, r.filtered[i], r.run)
  }

  lemma LoadedGood(w: World, startId: Option<int>)
    requires Inv(w) && Validated(w.cursor, startId).Ok?
    ensures Good(Reopened(Validated(w.cursor, startId).value), w.cursor.lastSuccess, w.events)
    ensures |Validated(w.cursor, startId).value.pending| <= MAX_RANGES
  {
    var v := Validated(w.cursor, startId).value;
    if w.cursor.strategy.Some? {
      var s := w.cursor.strategy.value;
      CanonicalIsWellFormed(s.pending);
      MergedSound(s.pending, s.historyStart, s.frontier);
    } else if v.historyStart <= v.frontier {
      var rs := [Range(v.historyStart, v.frontier)];
      assert Ids(rs) == Span(rs[0]);
      MergedSound(rs, v.historyStart, v.frontier);
    }
  }

  // ---- Locating ----

  /** What a locate probe may ask: the stored upper end again, or an ID between the ends. */
  predicate Askable(search: Search, probe: int)
  {
    && search.lower < probe <= MAX_ID
    && (search.upper.Some? ==> probe <= search.upper.value)
  }

  lemma PlanLocateFacts(r: Round, last: Option<int>)
    requires SearchAcceptable(r.state, last) && IsId(r.state.frontier)
    requires r.state.search.upper.Some? ==> r.state.search.lower + 2 <= r.state.search.upper.value
    requires r.revalidate.Some? ==> r.state.search.upper == r.revalidate
    requires PlanLocate(r).Ask?
    ensures PlanLocate(r).phase.Locate? && Askable(r.state.search, PlanLocate(r).id)
  {
  }

  lemma LocatedGood(s: State, last: Option<int>, events: seq<Event>, probe: int, status: Status)
    requires Good(s, last, events) && s.phase.Locate? && Askable(s.search, probe)
    ensures Good(Located(s, probe, status), Seen(last, probe, status), events)
    ensures Located(s, probe, status).phase.Scan? ==> !status.Failed?
  {
    hide Merged, Keys, Resolved;
    var s' := Located(s, probe, status);
    if s'.frontier > s.frontier {
      var added := Range(s.frontier + 1, s'.frontier);
      var rs := s.pending + [added];
      IdsAppend(s.pending, added);
      CanonicalIsWellFormed(s.pending);
      MergedSound(rs, s.historyStart, s'.frontier);
      DeferredFits(s');
      forall id | s'.historyStart <= id <= s'.frontier && id !in Ids(s'.pending) ensures Resolved(events, id) {
        assert id !in Ids(s.pending) && id !in Span(added);
      }
    }
  }

  // ---- Settling ----

  lemma FinishedGood(s: State, last: Option<int>, events: seq<Event>, id: int)
    requires Good(s, last, events) && Resolved(events, id)
    ensures Good(Finished(s, id), last, events)
  {
    RemovedFacts(s.pending, id);
    PopFacts(s.deferred, id);
    DeferredFits(Finished(s, id));
  }

  lemma {:induction false} AllFinishedGood(s: State, last: Option<int>, events: seq<Event>, ids: seq<int>)
    requires Good(s, last, events)
    requires forall i :: 0 <= i < |ids| ==> Resolved(events, ids[i])
    ensures Good(AllFinished(s, ids), last, events)
    decreases |ids|
  {
    if ids != [] {
      FinishedGood(s, last, events, ids[0]);
      forall i | 0 <= i < |ids[1..]| ensures Resolved(events, ids[1..][i]) {
        assert ids[1..][i] == ids[i + 1];
      }
      AllFinishedGood(Finished(s, ids[0]), last, events, ids[1..]);
    }
  }

  lemma PostponedGood(s: State, last: Option<int>, events: seq<Event>, id: int, at: int)
    requires Good(s, last, events) && id in Ids(s.pending) && at >= 0
    ensures Good(s.(deferred := Postponed(s.deferred, id, at)), last, events)
  {
    PostponedFacts(s.deferred, id, at);
    DeferredFits(s.(deferred := Postponed(s.deferred, id, at)));
  }
}
