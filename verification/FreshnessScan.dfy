/** Which pending ID a scan step takes. */
module FreshnessScan {
  import opened Ranges
  import opened Freshness

  lemma {:induction false} LargestInFacts(lower: int, upper: int, d: seq<Retry>, now: int)
    ensures var c := LargestIn(lower, upper, d, now);
      && (c.Some? ==> lower <= c.value <= upper && Eligible(d, now, c.value))
      && (forall id :: lower <= id <= upper && Eligible(d, now, id) ==> c.Some? && id <= c.value)
    decreases upper - lower
  {
    if lower <= upper && !Eligible(d, now, upper) {
      LargestInFacts(lower, upper - 1, d, now);
    }
  }

  lemma {:induction false} SmallestInFacts(lower: int, upper: int, d: seq<Retry>, now: int)
    ensures var c := SmallestIn(lower, upper, d, now);
      && (c.Some? ==> lower <= c.value <= upper && Eligible(d, now, c.value))
      && (forall id :: lower <= id <= upper && Eligible(d, now, id) ==> c.Some? && c.value <= id)
    decreases upper - lower
  {
    if lower <= upper && !Eligible(d, now, lower) {
      SmallestInFacts(lower + 1, upper, d, now);
    }
  }

  /** A recent scan takes the largest pending ID whose retry time has passed. */
  lemma {:induction false} LargestFacts(rs: seq<Range>, d: seq<Retry>, now: int)
    requires Canonical(rs)
    ensures var c := Largest(rs, d, now);
      && (c.Some? ==> c.value in Ids(rs) && Eligible(d, now, c.value))
      && (forall id :: id in Ids(rs) && Eligible(d, now, id) ==> c.Some? && id <= c.value)
    decreases |rs|
  {
    if rs != [] {
      var last, front := rs[|rs| - 1], rs[..|rs| - 1];
      assert rs == front + [last];
      CanonicalConcat(front, [last]);
      IdsConcat(front, [last]);
      LargestInFacts(last.lower, last.upper, d, now);
      LargestFacts(front, d, now);
      forall id | id in Ids(front) ensures id < last.lower {
        IdsBounds(front, id);
      }
    }
  }

  /** A history scan takes the smallest one. */
  lemma {:induction false} SmallestFacts(rs: seq<Range>, d: seq<Retry>, now: int)
    requires Canonical(rs)
    ensures var c := Smallest(rs, d, now);
      && (c.Some? ==> c.value in Ids(rs) && Eligible(d, now, c.value))
      && (forall id :: id in Ids(rs) && Eligible(d, now, id) ==> c.Some? && c.value <= id)
  {
    if rs != [] {
      SmallestInFacts(rs[0].lower, rs[0].upper, d, now);
      SmallestFacts(rs[1..], d, now);
      forall id | id in Ids(rs[1..]) ensures rs[0].upper < id {
        IdsBounds(rs[1..], id);
      }
    }
  }

  /** The whole scan rule: `waiting_visibility` exactly when nothing pending is eligible, otherwise the
      smallest eligible ID on every fourth scan, if anything below the last 64 IDs is pending, and the
      largest on any other. */
  lemma ScanRule(r: Round, now: int)
    requires Canonical(r.state.pending)
    ensures var s := r.state; var p := PlanScan(r, now);
      && (p == Halt("caught_up") <==> Ids(s.pending) == {})
      && (p == Halt("waiting_visibility") <==>
          Ids(s.pending) != {} && forall id :: id in Ids(s.pending) ==> !Eligible(s.deferred, now, id))
      && (p.Ask? ==>
          && p.phase.Scan? && p.id in Ids(s.pending) && Eligible(s.deferred, now, p.id)
          && forall id :: id in Ids(s.pending) && Eligible(s.deferred, now, id) ==>
             if (r.scanned + 1) % 4 == 0 && s.pending[0].lower < Max(s.historyStart, s.frontier - 63) then p.id <= id
             else id <= p.id)
  {
    var s := r.state;
    if s.pending != [] {
      CanonicalOrder(s.pending, 0, 0);
      InIds(s.pending, 0, s.pending[0].lower);
      LargestFacts(s.pending, s.deferred, now);
      SmallestFacts(s.pending, s.deferred, now);
    }
  }
}
