/** The one-shot search for a latest-ID candidate: a budgeted bisection over answers
    that may change from one request to the next.
  */
module Bootstrap {
  import opened Logarithm
  import opened Options

  const MAX_ID: int := 0x7FFF_FFFF_FFFF_FFFF
  const MAX_REQUESTS: nat := 64
  const MAX_NEIGHBOR_RADIUS: nat := 16

  datatype Config = Config(knownId: int, upperId: int, maxRequests: nat, radius: nat)

  /** The checks of `BootstrapConfig.__post_init__`. */
  predicate ValidConfig(c: Config)
  {
    && 1 <= c.knownId < c.upperId <= MAX_ID
    && 1 <= c.maxRequests <= MAX_REQUESTS && 1 <= c.radius <= MAX_NEIGHBOR_RADIUS
  }

  /** A report's time, with or without a known offset. */
  datatype Stamp = Stamp(aware: bool, at: int)

  datatype Failure = Unauthorized | RateLimited | NetworkError | Malformed | BudgetExhausted | LeaseLost

  datatype Outcome = Report(time: Option<Stamp>) | Empty | Failed(failure: Failure) {
    function Time(): Option<Stamp>
    {
      if Report? then time else None
    }
  }

  datatype Observation = Observation(id: int, outcome: Outcome)

  datatype Stop =
    | Running
    | MaxRequests
    | Stopped(failure: Failure)
    | BoundaryChanged
    | ContinuityViolation
    | TimeReversed
    | LowerNotExisting
    | UpperNotEmpty
    | CandidateOnly

  /** What the transport answers to the k-th request when it asks for an ID. */
  type Answers = (nat, int) -> Outcome

  predicate Comparable(a: Option<Stamp>, b: Option<Stamp>)
  {
    a.Some? && b.Some? && a.value.aware == b.value.aware
  }

  predicate InOrder(a: Option<Stamp>, b: Option<Stamp>)
  {
    Comparable(a, b) ==> a.value.at <= b.value.at
  }

  /** Reported IDs lie below empty ones. */
  ghost predicate ReportPrefix(seen: map<int, bool>)
  {
    forall a, b :: a in seen && b in seen && seen[a] && !seen[b] ==> a < b
  }

  ghost predicate TimeOrdered(times: map<int, Option<Stamp>>)
  {
    forall a, b :: a in times && b in times && a < b ==> InOrder(times[a], times[b])
  }

  /** `seen` is what every observation said, and none of them failed. */
  ghost predicate Summarised(observations: seq<Observation>, seen: map<int, bool>)
  {
    && (forall i :: 0 <= i < |observations| ==>
      && !observations[i].outcome.Failed? && observations[i].id in seen
      && seen[observations[i].id] == observations[i].outcome.Report?)
    && (forall id :: id in seen ==> exists i :: 0 <= i < |observations| && observations[i].id == id)
  }

  /** `times` holds the time of some report of each reported ID. */
  ghost predicate Timed(observations: seq<Observation>, seen: map<int, bool>, times: map<int, Option<Stamp>>)
  {
    && (forall id :: id in times <==> id in seen && seen[id])
    && (forall id :: id in times ==> Observation(id, Report(times[id])) in observations)
  }

  /** Each reason to stop without a candidate is something that was observed. */
  ghost predicate Explained(stop: Stop, observations: seq<Observation>, c: Config)
  {
    match stop
    case Running => false
    case CandidateOnly => false
    case MaxRequests => |observations| == c.maxRequests
    case Stopped(failure) => |observations| > 0 && observations[|observations| - 1].outcome == Failed(failure)
    case BoundaryChanged =>
      exists id, o: Outcome :: o.Report? && Observation(id, o) in observations && Observation(id, Empty) in observations
    case ContinuityViolation =>
      exists a, b, o: Outcome :: a < b && o.Report? && Observation(a, Empty) in observations
          && Observation(b, o) in observations
    case TimeReversed =>
      exists a, b, s, t :: a < b && !InOrder(s, t) && Observation(a, Report(s)) in observations
          && Observation(b, Report(t)) in observations
    case LowerNotExisting => observations == [Observation(c.knownId, Empty)]
    case UpperNotEmpty =>
      |observations| == 2 && observations[1].id == c.upperId && observations[1].outcome.Report?
  }

  predicate Discontinuous(seen: map<int, bool>)
  {
    exists a, b :: a in seen && b in seen && !seen[a] && seen[b] && a < b
  }

  /** A recorded time runs against the order of the IDs. */
  predicate Reversed(times: map<int, Option<Stamp>>, id: int, time: Option<Stamp>)
  {
    exists other :: other in times && Comparable(times[other], time)
      && (if other < id then times[other].value.at > time.value.at
          else other > id && times[other].value.at < time.value.at)
  }

  ghost predicate Inside(observations: seq<Observation>, c: Config)
  {
    forall i :: 0 <= i < |observations| ==> c.knownId <= observations[i].id <= c.upperId
  }

  /** Reports are exactly the IDs up to `n`, with times in the order of the IDs, and
      nothing changes between requests. */
  ghost predicate FixedPrefix(answers: Answers, n: int, c: Config)
  {
    && c.knownId <= n < c.upperId
    && (forall k: nat, id: int :: c.knownId <= id <= c.upperId ==>
      if id <= n then answers(k, id).Report? else answers(k, id).Empty?)
    && (forall k: nat, k': nat, a: int, b: int :: c.knownId <= a < b <= n ==>
      InOrder(answers(k, a).Time(), answers(k', b).Time()))
  }

  /** Everything seen comes from a fixed prefix ending at `n`. */
  ghost predicate FromPrefix(answers: Answers, n: int, c: Config, seen: map<int, bool>, times: map<int, Option<Stamp>>)
  {
    && (forall id :: id in seen ==> c.knownId <= id <= c.upperId && (seen[id] <==> id <= n))
    && (forall id :: id in times ==> c.knownId <= id <= n && exists k: nat :: times[id] == answers(k, id).Time())
  }

  lemma SummarisedStep(observations: seq<Observation>, seen: map<int, bool>, id: int, o: Outcome)
    requires Summarised(observations, seen) && !o.Failed? && (id in seen ==> seen[id] == o.Report?)
    ensures Summarised(observations + [Observation(id, o)], seen[id := o.Report?])
  {
    var next := observations + [Observation(id, o)];
    var after := seen[id := o.Report?];
    forall other | other in after
      ensures exists i :: 0 <= i < |next| && next[i].id == other
    {
      if other == id {
        assert next[|observations|].id == other;
      } else {
        var i :| 0 <= i < |observations| && observations[i].id == other;
        assert next[i].id == other;
      }
    }
  }

  lemma SeenWasObserved(observations: seq<Observation>, seen: map<int, bool>, id: int) returns (o: Outcome)
    requires Summarised(observations, seen) && id in seen
    ensures Observation(id, o) in observations && !o.Failed? && (o.Report? <==> seen[id])
  {
    var i :| 0 <= i < |observations| && observations[i].id == id;
    o := observations[i].outcome;
    assert observations[i] == Observation(id, o);
  }

  lemma ChangeExplained(observations: seq<Observation>, seen: map<int, bool>, id: int, o: Outcome, c: Config)
    requires Summarised(observations, seen) && id in seen && !o.Failed? && seen[id] != o.Report?
    ensures Explained(BoundaryChanged, observations + [Observation(id, o)], c)
  {
    var earlier := SeenWasObserved(observations, seen, id);
    var next := observations + [Observation(id, o)];
    assert next[|observations|] == Observation(id, o);
    if o.Report? {
      assert earlier == Empty;
      assert Observation(id, o) in next && Observation(id, Empty) in next;
    } else {
      assert o == Empty;
      assert Observation(id, earlier) in next && Observation(id, Empty) in next;
    }
  }

  lemma DiscontinuityExplained(observations: seq<Observation>, seen: map<int, bool>, c: Config)
    requires Summarised(observations, seen) && Discontinuous(seen)
    ensures Explained(ContinuityViolation, observations, c)
  {
    var a, b :| a in seen && b in seen && !seen[a] && seen[b] && a < b;
    var empty := SeenWasObserved(observations, seen, a);
    var report := SeenWasObserved(observations, seen, b);
    assert empty == Empty;
  }

  lemma ReversalExplained(observations: seq<Observation>, seen: map<int, bool>, times: map<int, Option<Stamp>>, id: int,
                          time: Option<Stamp>, c: Config)
    requires Timed(observations, seen, times) && Reversed(times, id, time)
    ensures Explained(TimeReversed, observations + [Observation(id, Report(time))], c)
  {
    var next := observations + [Observation(id, Report(time))];
    assert next[|observations|] == Observation(id, Report(time));
    var other :| other in times && Comparable(times[other], time)
      && (if other < id then times[other].value.at > time.value.at
          else other > id && times[other].value.at < time.value.at);
    assert Observation(other, Report(times[other])) in next;
    if other < id {
      assert !InOrder(times[other], time);
    } else {
      assert !InOrder(time, times[other]);
    }
  }

  lemma TimedStep(observations: seq<Observation>, seen: map<int, bool>, times: map<int, Option<Stamp>>, id: int,
      o: Outcome)
    requires Timed(observations, seen, times) && !o.Failed? && (id in seen ==> seen[id] == o.Report?)
    ensures o.Report? ==> Timed(observations + [Observation(id, o)], seen[id := true], times[id := o.Time()])
    ensures o.Empty? ==> Timed(observations + [Observation(id, o)], seen[id := false], times)
  {
    var next := observations + [Observation(id, o)];
    assert next[|observations|] == Observation(id, o);
  }

  lemma TimesStep(times: map<int, Option<Stamp>>, id: int, time: Option<Stamp>)
    requires TimeOrdered(times) && !Reversed(times, id, time)
    ensures TimeOrdered(times[id := time])
  {
    var next := times[id := time];
    forall a, b | a in next && b in next && a < b
      ensures InOrder(next[a], next[b])
    {
      if a == id {
        assert b in times;
      } else if b == id {
        assert a in times;
      } else {
        assert a in times && b in times;
      }
    }
  }

  /** No check of `probe` can fail on a fixed prefix. */
  lemma PrefixStep(answers: Answers, n: int, c: Config, seen: map<int, bool>, times: map<int, Option<Stamp>>, k: nat,
      id: int)
    requires FixedPrefix(answers, n, c) && FromPrefix(answers, n, c, seen, times) && c.knownId <= id <= c.upperId
    ensures !answers(k, id).Failed? && (answers(k, id).Report? <==> id <= n)
    ensures id in seen ==> seen[id] == answers(k, id).Report?
    ensures !Discontinuous(seen[id := answers(k, id).Report?])
    ensures FromPrefix(answers, n, c, seen[id := answers(k, id).Report?], times)
    ensures id <= n ==> !Reversed(times, id, answers(k, id).Time())
    ensures id <= n ==> FromPrefix(answers, n, c, seen[id := true], times[id := answers(k, id).Time()])
  {
    var time := answers(k, id).Time();
    if id <= n {
      forall other | other in times && Comparable(times[other], time) && other != id
        ensures if other < id then times[other].value.at <= time.value.at else times[other].value.at >= time.value.at
      {
        var j: nat :| times[other] == answers(j, other).Time();
        if other < id {
          assert InOrder(answers(j, other).Time(), answers(k, id).Time());
        } else {
          assert InOrder(answers(k, id).Time(), answers(j, other).Time());
        }
      }
    }
  }

  lemma NothingSeen(answers: Answers, n: int, c: Config)
    requires FixedPrefix(answers, n, c)
    ensures c.knownId <= n < c.upperId && FromPrefix(answers, n, c, map[], map[])
  {
  }

  lemma BoundaryIsEnd(answers: Answers, n: int, c: Config, seen: map<int, bool>, times: map<int, Option<Stamp>>,
      candidate: int)
    requires FromPrefix(answers, n, c, seen, times) && candidate in seen && seen[candidate]
    requires candidate + 1 in seen && !seen[candidate + 1]
    ensures candidate == n
  {
  }

  /** Requests that always suffice: both ends, the bisection and the neighbourhood. */
  function Needed(c: Config): int
  {
    2 + Log2(c.upperId - c.knownId) + (2 * c.radius + 2)
  }

  /** The observations are reports up to `candidate` and empty above it, and they include
      every ID of the bracket within the radius of that boundary.
    */
  ghost predicate Boundary(candidate: int, observations: seq<Observation>, c: Config)
  {
    && c.knownId <= candidate < c.upperId
    && (forall o :: o in observations ==> if o.id <= candidate then o.outcome.Report? else o.outcome.Empty?)
    && (forall id :: Near(id, candidate, c) ==> Probed(id, observations))
  }

  predicate Near(id: int, candidate: int, c: Config)
  {
    c.knownId <= id <= c.upperId && candidate - c.radius <= id <= candidate + 1 + c.radius
  }

  ghost predicate Probed(id: int, observations: seq<Observation>)
  {
    exists o: Outcome :: Observation(id, o) in observations
  }

  lemma BoundaryFacts(candidate: int, observations: seq<Observation>, seen: map<int, bool>, c: Config)
    requires Summarised(observations, seen) && ReportPrefix(seen) && c.knownId <= candidate < c.upperId
    requires candidate in seen && seen[candidate] && candidate + 1 in seen && !seen[candidate + 1]
    requires forall id :: Near(id, candidate, c) ==> id in seen
    ensures Boundary(candidate, observations, c)
  {
    forall o | o in observations
      ensures if o.id <= candidate then o.outcome.Report? else o.outcome.Empty?
    {
      var i :| 0 <= i < |observations| && observations[i] == o;
      assert seen[o.id] == o.outcome.Report?;
      assert !o.outcome.Failed?;
    }
    forall id | Near(id, candidate, c)
      ensures Probed(id, observations)
    {
      var o := SeenWasObserved(observations, seen, id);
    }
  }

  predicate AllComparable(times: map<int, Option<Stamp>>)
  {
    forall a, b :: a in times && b in times ==> Comparable(times[a], times[b])
  }

  ghost predicate Increasing(times: map<int, Option<Stamp>>)
  {
    forall a, b :: a in times && b in times && a <= b ==>
      times[a].Some? && times[b].Some? && times[a].value.at <= times[b].value.at
  }

  /** Every report has a time, and either all of them with an offset or none. */
  ghost predicate OneKindOfTime(times: map<int, Option<Stamp>>)
  {
    AllOfKind(times, true) || AllOfKind(times, false)
  }

  ghost predicate AllOfKind(times: map<int, Option<Stamp>>, aware: bool)
  {
    forall id :: id in times ==> times[id].Some? && times[id].value.aware == aware
  }

  lemma ComparableExactly(times: map<int, Option<Stamp>>)
    ensures AllComparable(times) <==> OneKindOfTime(times)
  {
    if AllComparable(times) {
      if id :| id in times {
        assert Comparable(times[id], times[id]);
        forall other | other in times
          ensures times[other].Some? && times[other].value.aware == times[id].value.aware
        {
          assert Comparable(times[id], times[other]);
        }
        assert AllOfKind(times, times[id].value.aware);
      } else {
        assert AllOfKind(times, true);
      }
    }
  }

  lemma ComparableTimesIncrease(times: map<int, Option<Stamp>>)
    requires AllComparable(times) && TimeOrdered(times)
    ensures Increasing(times)
  {
    forall a, b | a in times && b in times && a <= b
      ensures times[a].Some? && times[b].Some? && times[a].value.at <= times[b].value.at
    {
      assert Comparable(times[a], times[b]);
      assert a < b ==> InOrder(times[a], times[b]);
    }
  }

  class BootstrapRunner {
    const config: Config
    const answers: Answers
    var observations: seq<Observation>
    var seen: map<int, bool>
    var times: map<int, Option<Stamp>>
    var lower: Option<int>
    var upper: Option<int>
    var stop: Stop

    constructor (config: Config, answers: Answers)
      requires ValidConfig(config)
      ensures this.config == config && this.answers == answers
      ensures observations == [] && seen == map[] && times == map[] && lower == upper == None && stop == Running
    {
      this.config, this.answers := config, answers;
      observations, seen, times, lower, upper, stop := [], map[], map[], None, None, Running;
    }

    /** Everything probed so far is consistent. */
    ghost predicate Consistent()
      reads this
    {
      && |observations| <= config.maxRequests && Inside(observations, config)
      && Summarised(observations, seen) && ReportPrefix(seen) && TimeOrdered(times)
      && Timed(observations, seen, times)
    }

    /** The `probe` closure: one request, and the checks that its answer fits all the
        earlier ones.
      */
    method Probe(id: int, ghost n: int) returns (outcome: Option<Outcome>)
      requires Consistent() && config.knownId <= id <= config.upperId
      modifies this`observations, this`seen, this`times, this`stop
      ensures old(observations) <= observations && |observations| <= |old(observations)| + 1
      ensures |observations| <= config.maxRequests && Inside(observations, config)
      ensures outcome.Some? ==>
        && Consistent() && stop == old(stop) && !outcome.value.Failed?
        && observations == old(observations) + [Observation(id, outcome.value)]
        && seen == old(seen)[id := outcome.value.Report?] && (id in old(seen) ==> old(seen)[id] == seen[id])
      ensures outcome.None? ==> Explained(stop, observations, config)
      ensures FixedPrefix(answers, n, config) && old(FromPrefix(answers, n, config, seen, times))
              && |old(observations)| < config.maxRequests
              ==> outcome.Some? && FromPrefix(answers, n, config, seen, times) && (outcome.value.Report? <==> id <= n)
    {
      hide Summarised, TimeOrdered, FromPrefix, FixedPrefix, Reversed, Timed;
      if |observations| >= config.maxRequests {
        stop := MaxRequests;
        return None;
      }
      var o := answers(|observations|, id);
      if FixedPrefix(answers, n, config) && FromPrefix(answers, n, config, seen, times) {
        PrefixStep(answers, n, config, seen, times, |observations|, id);
      }
      observations := observations + [Observation(id, o)];
      if o.Failed? {
        stop := Stopped(o.failure);
        return None;
      }
      if id in seen && seen[id] != o.Report? {
        ChangeExplained(old(observations), seen, id, o, config);
        stop := BoundaryChanged;
        return None;
      }
      SummarisedStep(old(observations), seen, id, o);
      TimedStep(old(observations), seen, times, id, o);
      seen := seen[id := o.Report?];
      if Discontinuous(seen) {
        DiscontinuityExplained(observations, seen, config);
        stop := ContinuityViolation;
        return None;
      }
      if o.Report? {
        if Reversed(times, id, o.time) {
          ReversalExplained(old(observations), old(seen), times, id, o.time, config);
          stop := TimeReversed;
          return None;
        }
        TimesStep(times, id, o.time);
        times := times[id := o.time];
      }
      outcome := Some(o);
    }

    /** What is known once both ends of the bracket have been confirmed. */
    ghost predicate Bracketed()
      reads this
    {
      && Consistent() && lower.Some? && upper.Some?
      && config.knownId <= lower.value < upper.value <= config.upperId
      && config.knownId in seen && seen[config.knownId] && config.upperId in seen && !seen[config.upperId]
      && lower.value in seen && seen[lower.value] && upper.value in seen && !seen[upper.value]
    }

    ghost predicate Fixed(n: int)
      reads this
    {
      FixedPrefix(answers, n, config) && FromPrefix(answers, n, config, seen, times)
    }

    /** Requests spent so far, with those the bisection may still need. */
    ghost function Spent(): int
      reads this
      requires lower.Some? && upper.Some?
    {
      |observations| + Log2(upper.value - lower.value)
    }

    method ConfirmBracket(ghost n: int) returns (confirmed: bool)
      requires ValidConfig(config) && Consistent() && observations == [] && seen == map[] && times == map[]
      modifies this
      ensures |observations| <= config.maxRequests && |observations| <= 2 && Inside(observations, config)
      ensures confirmed ==> Bracketed() && lower.value == config.knownId && upper.value == config.upperId
      ensures !confirmed ==> Explained(stop, observations, config)
      ensures FixedPrefix(answers, n, config) && 2 <= config.maxRequests ==> confirmed && Fixed(n)
    {
      hide Summarised, TimeOrdered, FixedPrefix, Timed, FromPrefix;
      if FixedPrefix(answers, n, config) {
        NothingSeen(answers, n, config);
      }
      var first := Probe(config.knownId, n);
      if first.None? {
        return false;
      }
      if !first.value.Report? {
        assert observations == [Observation(config.knownId, Empty)];
        stop := LowerNotExisting;
        return false;
      }
      lower := Some(config.knownId);
      var second := Probe(config.upperId, n);
      if second.None? {
        return false;
      }
      if !second.value.Empty? {
        stop := UpperNotEmpty;
        return false;
      }
      upper := Some(config.upperId);
      confirmed := true;
    }

    /** The bisection: each answer halves the bracket. */
    method Bisect(ghost n: int) returns (closed: bool)
      requires Bracketed()
      modifies this
      ensures |observations| <= config.maxRequests && |observations| <= old(Spent()) && Inside(observations, config)
      ensures closed ==> Bracketed() && upper.value == lower.value + 1
      ensures !closed ==> Explained(stop, observations, config)
      ensures old(Fixed(n)) && old(Spent()) <= config.maxRequests ==> closed && Fixed(n)
    {
      hide Summarised, TimeOrdered, FixedPrefix, Timed, Explained, Inside, ReportPrefix, FromPrefix;
      while upper.value - lower.value > 1
        invariant Bracketed() && Spent() <= old(Spent())
        invariant old(Fixed(n)) ==> Fixed(n)
        decreases upper.value - lower.value
      {
        var midpoint := lower.value + (upper.value - lower.value) / 2;
        ghost var width := upper.value - lower.value;
        Log2Monotone(width / 2, (width + 1) / 2);
        var outcome := Probe(midpoint, n);
        if outcome.None? {
          return false;
        }
        if outcome.value.Report? {
          lower := Some(midpoint);
        } else {
          upper := Some(midpoint);
        }
      }
      closed := true;
    }

    /** The reprobe of every ID within the radius of the boundary. */
    method Reprobe(ghost n: int) returns (steady: bool)
      requires Bracketed() && upper.value == lower.value + 1
      modifies this`observations, this`seen, this`times, this`stop
      ensures |observations| <= config.maxRequests && |observations| <= old(|observations|) + 2 * config.radius + 2
      ensures Inside(observations, config)
      ensures steady ==> Bracketed()
      ensures steady ==> forall id :: Near(id, lower.value, config) ==> id in seen
      ensures !steady ==> Explained(stop, observations, config)
      ensures old(Fixed(n)) && old(|observations|) + 2 * config.radius + 2 <= config.maxRequests ==> steady && Fixed(n)
    {
      hide Summarised, TimeOrdered, FixedPrefix, Timed, Explained, Inside, ReportPrefix, FromPrefix;
      var first := if config.knownId > lower.value - config.radius then config.knownId else lower.value - config.radius;
      var last := if config.upperId < upper.value + config.radius then config.upperId else upper.value + config.radius;
      var id := first;
      while id <= last
        invariant first <= id <= last + 1 && Bracketed()
        invariant |observations| == old(|observations|) + (id - first)
        invariant forall done :: first <= done < id ==> done in seen
        invariant old(Fixed(n)) ==> Fixed(n)
      {
        var outcome := Probe(id, n);
        if outcome.None? {
          return false;
        }
        id := id + 1;
      }
      steady := true;
    }

    /** The whole search. Whatever is answered, it stays inside the configured bracket and
        the budget. A candidate means that everything observed is a report up to it and empty
        above it; on a fixed prefix a sufficient budget finds its end.
      */
    method Run(ghost n: int) returns (candidate: Option<int>, timeOrderVerified: bool)
      requires ValidConfig(config) && Consistent() && observations == [] && seen == map[] && times == map[]
      modifies this
      ensures Inside(observations, config)
      ensures |observations| <= config.maxRequests
      ensures |observations| <= Needed(config)
      ensures candidate.Some? <==> stop == CandidateOnly
      ensures candidate.Some? ==> Boundary(candidate.value, observations, config)
      ensures candidate.Some? ==> TimeOrdered(times) && Timed(observations, seen, times)
      ensures candidate.None? ==> Explained(stop, observations, config)
      ensures timeOrderVerified <==> candidate.Some? && OneKindOfTime(times)
      ensures timeOrderVerified ==> Increasing(times)
      ensures FixedPrefix(answers, n, config) && Needed(config) <= config.maxRequests ==> candidate == Some(n)
    {
      hide Inside, FixedPrefix, FromPrefix, TimeOrdered, Timed, ReportPrefix, Summarised, Boundary, Increasing,
        OneKindOfTime;
      var going := ConfirmBracket(n);
      if !going {
        return None, false;
      }
      going := Bisect(n);
      if !going {
        return None, false;
      }
      going := Reprobe(n);
      if !going {
        return None, false;
      }
      stop := CandidateOnly;
      candidate := lower;
      if Fixed(n) {
        BoundaryIsEnd(answers, n, config, seen, times, lower.value);
      }
      timeOrderVerified := AllComparable(times);
      ComparableExactly(times);
      if timeOrderVerified {
        ComparableTimesIncrease(times);
      }
      BoundaryFacts(candidate.value, observations, seen, config);
    }
  }
}
