/** Every answer of the coordinator, as the log determines it. */
module CoordinationAnswers {
  import opened Options
  import opened Coordination
  import opened CoordinationRuns

  // The rows are only a summary: from the log of what has happened one can tell who may acquire an
  // account, who gets a grant and who must wait how long.

  // ---- What the log says ----

  /** The lease object is in use. */
  predicate Entered(log: seq<Event>, l: Lease)
  {
    log != [] && (
      var e := log[|log| - 1];
      if e.Acquired? && e.lease == l then true
      else if e.Released? && e.lease == l then false
      else Entered(log[..|log| - 1], l))
  }

  /** The lease acquired the account last, and neither 12 minutes since its last acquisition or grant
      have passed nor has it left. */
  predicate Holds(log: seq<Event>, l: Lease, now: int)
  {
    LastHolder(log, l.account) == Some(l) && Busy(log, l.account, now)
  }

  predicate Busy(log: seq<Event>, account: string, now: int)
  {
    var until := LeaseEnd(log, account); until.Some? && now < until.value
  }

  function LeaseEnd(log: seq<Event>, account: string): (at: Option<int>)
  {
    if log == [] then None
    else
      var e := log[|log| - 1];
      if (e.Acquired? || e.Granted?) && e.lease.account == account then Some(e.at + 720_000)
      else if e.Released? && e.lease.account == account && LastHolder(log, account) == Some(e.lease) then None
      else LeaseEnd(log[..|log| - 1], account)
  }

  /** Rate pauses since the last completion after the cooldown. */
  function Failures(log: seq<Event>): (n: nat)
  {
    if log == [] then 0
    else
      var e, before := log[|log| - 1], log[..|log| - 1];
      match e
      case RatePaused(_, _) => Failures(before) + 1
      case Completed(_, at) => if Cooldown(before) <= at then 0 else Failures(before)
      case _ => Failures(before)
  }

  /** When the window of the last grant began: windows of five minutes, each opened by a grant. */
  function WindowFrom(stamps: seq<int>): (from: int)
  {
    if stamps == [] then 0
    else
      var before, last := WindowFrom(stamps[..|stamps| - 1]), stamps[|stamps| - 1];
      if last >= before + 300_000 then last else before
  }

  /** The grants made in it. */
  function GrantsInWindow(stamps: seq<int>): (n: nat)
  {
    if stamps == [] then 0
    else
      var before, last := stamps[..|stamps| - 1], stamps[|stamps| - 1];
      if last >= WindowFrom(before) + 300_000 then 1 else GrantsInWindow(before) + 1
  }

  /** The first admissible time of the next grant. */
  function ReadyAt(stamps: seq<int>): (at: int)
  {
    if stamps == [] then 0 else stamps[|stamps| - 1] + 1000
  }

  // ---- The answers ----

  function EnterAnswer(log: seq<Event>, l: Lease, now: int): (a: Answer)
  {
    if now < Cooldown(log) then Refused("rate_limited")
    else if AuthLatched(log, l.account) then Refused("unauthorized")
    else if ServiceLatched(log, l.account) then Refused("service_rejected")
    else if Busy(log, l.account, now) then Refused("account_busy")
    else Done
  }

  function RpcAnswer(log: seq<Event>, l: Lease, now: int): (a: Answer)
  {
    var stamps := Grants(log, l.account);
    if !Holds(log, l, now) then Refused("lease_lost")
    else if now < Cooldown(log) then Refused("rate_limited")
    else if AuthLatched(log, l.account) then Refused("unauthorized")
    else if ServiceLatched(log, l.account) then Refused("service_rejected")
    else if now < ReadyAt(stamps) then Wait(ReadyAt(stamps) - now)
    else if now < WindowFrom(stamps) + 300_000 && GrantsInWindow(stamps) >= 44 then Refused("budget_exhausted")
    else Done
  }

  /** Pauses and completions. */
  function OwnerAnswer(log: seq<Event>, l: Lease, now: int): (a: Answer)
  {
    if Holds(log, l, now) then Done else Refused("lease_lost")
  }

  function ResumeAnswer(log: seq<Event>, account: string, now: int): (a: Answer)
  {
    if Busy(log, account, now) then Refused("account_busy") else Done
  }

  /** The cooldown after a rate pause: 15 minutes, then 30, then 60, and never an earlier end. */
  function NextCooldown(log: seq<Event>, now: int): (c: int)
  {
    var n := Failures(log);
    var minutes := if n == 0 then 15 else if n == 1 then 30 else 60;
    if Cooldown(log) < now + minutes * 60_000 then now + minutes * 60_000 else Cooldown(log)
  }

  /** What an action adds to the log. */
  function Effect(log: seq<Event>, a: Action): (es: seq<Event>)
  {
    match a
    case DoEnter(l, now) => if !Entered(log, l) && EnterAnswer(log, l, now).Done? then [Acquired(l, now)] else []
    case DoExit(l) => if Entered(log, l) then [Released(l)] else []
    case DoRpc(l, now) => if RpcAnswer(log, l, now).Done? then [Granted(l, now)] else []
    case DoPauseAuth(l, now) => if Holds(log, l, now) then [AuthPaused(l)] else []
    case DoPauseService(l, now) => if Holds(log, l, now) then [ServicePaused(l)] else []
    case DoPauseRate(l, now) => if Holds(log, l, now) then [RatePaused(l, NextCooldown(log, now))] else []
    case DoComplete(l, now) => if Holds(log, l, now) then [Completed(l, now)] else []
    case DoResume(account, auth, service, now) =>
      if Busy(log, account, now) then [] else [Resumed(account, auth, service)]
  }

  // ---- The rows give these answers ----

  lemma {:induction false} LeaseEnds(log: seq<Event>, account: string)
    ensures LeaseEnd(log, account) == HeldUntil(log, account)
  {
    if log != [] {
      LeaseEnds(log[..|log| - 1], account);
    }
  }

  lemma {:induction false} BudgetIsWindow(stamps: seq<int>)
    ensures BudgetAfter(stamps) == Budget(WindowFrom(stamps), GrantsInWindow(stamps), ReadyAt(stamps))
    decreases |stamps|
  {
    if stamps != [] {
      BudgetIsWindow(stamps[..|stamps| - 1]);
    }
  }

  ghost predicate Summary(w: World)
  {
    && Inv(w) && w.db.failures == Failures(w.log)
    && forall l :: l in w.entered <==> Entered(w.log, l)
  }

  lemma RowSays(w: World, account: string)
    requires Inv(w)
    ensures var row := Row(w.db, account);
      && BudgetOf(row) == Budget(WindowFrom(Grants(w.log, account)), GrantsInWindow(Grants(w.log, account)),
                                 ReadyAt(Grants(w.log, account)))
      && row.authPaused == AuthLatched(w.log, account) && row.servicePaused == ServiceLatched(w.log, account)
      && (row.owner.Some? ==> LastHolder(w.log, account) == Some(Lease(row.owner.value, account)))
      && LeaseEnd(w.log, account) == if row.owner.Some? then Some(row.expires) else None
  {
    hide BudgetAfter, Admitted;
    assert RowMatches(Row(w.db, account), w.log, account);
    LeaseEnds(w.log, account);
    BudgetIsWindow(Grants(w.log, account));
  }

  lemma OwnsIsHolds(w: World, l: Lease, now: int)
    requires Inv(w)
    ensures Owns(w.db, l, now) <==> Holds(w.log, l, now)
  {
    RowSays(w, l.account);
  }

  /** The answers of all transactions. */
  lemma Answers(w: World, l: Lease, account: string, auth: bool, service: bool, now: int)
    requires Inv(w)
    ensures Enter(w.db, l, now).1 == EnterAnswer(w.log, l, now)
    ensures Attempt(w.db, l, now).1 == RpcAnswer(w.log, l, now)
    ensures PauseAuth(w.db, l, now).1 == PauseService(w.db, l, now).1 == PauseRate(w.db, l, now).1
            == Complete(w.db, l, now).1 == OwnerAnswer(w.log, l, now)
    ensures Resume(w.db, account, auth, service, now).1 == ResumeAnswer(w.log, account, now)
  {
    RowSays(w, l.account);
    RowSays(w, account);
    OwnsIsHolds(w, l, now);
  }

  lemma NextCooldownIs(w: World, l: Lease, now: int)
    requires Summary(w) && Owns(w.db, l, now)
    ensures PauseRate(w.db, l, now).0.cooldown == NextCooldown(w.log, now)
    ensures PauseRate(w.db, l, now).0.failures == Failures(w.log) + 1
  {
  }

  lemma StepEffect(w: World, a: Action)
    requires Summary(w)
    ensures Step(w, a).log == w.log + Effect(w.log, a)
  {
    hide Attempt, RpcAnswer, EnterAnswer, Holds, Owns, Busy, Inv, NextCooldown;
    match a
    case DoEnter(l, now) => Answers(w, l, "", false, false, now);
    case DoRpc(l, now) => Answers(w, l, "", false, false, now);
    case DoPauseAuth(l, now) => OwnsIsHolds(w, l, now);
    case DoPauseService(l, now) => OwnsIsHolds(w, l, now);
    case DoPauseRate(l, now) =>
      OwnsIsHolds(w, l, now);
      if Owns(w.db, l, now) {
        NextCooldownIs(w, l, now);
      }
    case DoComplete(l, now) => OwnsIsHolds(w, l, now);
    case DoResume(account, auth, service, now) => Answers(w, Lease(0, account), account, auth, service, now);
    case _ =>
  }

  lemma OneMore(log: seq<Event>, e: Event, l: Lease)
    ensures Failures(log + [e]) == match e
      case RatePaused(_, _) => Failures(log) + 1
      case Completed(_, at) => if Cooldown(log) <= at then 0 else Failures(log)
      case _ => Failures(log)
    ensures Entered(log + [e], l) <==>
            if e.Acquired? && e.lease == l then true else if e.Released? && e.lease == l then false else Entered(log, l)
  {
    Appended(log, e);
  }

  lemma StepSummary(w: World, a: Action)
    requires Summary(w)
    ensures Summary(Step(w, a))
  {
    hide Attempt, Inv, RpcAnswer, Entered, Failures;
    StepInv(w, a);
    var w' := Step(w, a);
    CooldownRow(w);
    if a.DoRpc? {
      GrantsCountNoFailure(w.db, a.lease, a.now);
    }
    if w'.log != w.log {
      var e := w'.log[|w.log|];
      assert w'.log == w.log + [e];
      forall l: Lease ensures l in w'.entered <==> Entered(w'.log, l) {
        OneMore(w.log, e, l);
      }
      OneMore(w.log, e, Lease(0, ""));
    } else {
      assert w' == w;
    }
  }

  lemma GrantsCountNoFailure(db: Database, l: Lease, now: int)
    ensures Attempt(db, l, now).0.failures == db.failures
  {
  }

  lemma CooldownRow(w: World)
    requires Inv(w)
    ensures w.db.cooldown == Cooldown(w.log)
  {
  }

  lemma {:induction false} RunSummary(w: World, actions: seq<Action>)
    requires Summary(w)
    ensures Summary(Run(w, actions))
    decreases |actions|
  {
    if actions != [] {
      StepSummary(w, actions[0]);
      RunSummary(Step(w, actions[0]), actions[1..]);
    }
  }

  // ---- The claims ----

  /** Over all runs an action is accepted exactly when the log admits it, and it has the effect that the
      log gives it. In particular an account whose lease has expired can be acquired. */
  lemma AcceptedExactly(actions: seq<Action>, a: Action)
    ensures var log := Run(START, actions).log; Step(Run(START, actions), a).log == log + Effect(log, a)
  {
    RunSummary(START, actions);
    StepEffect(Run(START, actions), a);
  }

  /** And every refusal and waiting time is the one that the log gives. */
  lemma AnsweredExactly(actions: seq<Action>, l: Lease, account: string, auth: bool, service: bool, now: int)
    ensures var w := Run(START, actions);
      && Enter(w.db, l, now).1 == EnterAnswer(w.log, l, now)
      && Attempt(w.db, l, now).1 == RpcAnswer(w.log, l, now)
      && PauseAuth(w.db, l, now).1 == PauseService(w.db, l, now).1 == PauseRate(w.db, l, now).1
         == Complete(w.db, l, now).1 == OwnerAnswer(w.log, l, now)
      && Resume(w.db, account, auth, service, now).1 == ResumeAnswer(w.log, account, now)
  {
    RunInv(START, actions);
    Answers(Run(START, actions), l, account, auth, service, now);
  }
}
