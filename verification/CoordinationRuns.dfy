/** What holds of every log of interleaved account leases. */
module CoordinationRuns {
  import opened Options
  import opened Coordination

  // ---- The budget of one account as a sequence of grant stamps ----

  function BudgetAfter(stamps: seq<int>): (b: Budget)
  {
    if stamps == [] then Budget(0, 0, 0)
    else Spent(BudgetAfter(stamps[..|stamps| - 1]), stamps[|stamps| - 1])
  }

  /** Each stamp was admissible when it was granted. */
  predicate Admitted(stamps: seq<int>)
  {
    stamps == [] || (
      var front, last := stamps[..|stamps| - 1], stamps[|stamps| - 1];
      && Admitted(front)
      && BudgetAfter(front).nextRpc <= last
      && Rolled(BudgetAfter(front), last).count < MAX_ACCOUNT_RPCS)
  }

  lemma {:induction false} AdmittedPrefix(s: seq<int>, k: nat)
    requires Admitted(s) && k <= |s|
    ensures Admitted(s[..k])
    decreases |s|
  {
    if k == |s| {
      assert s[..k] == s;
    } else {
      AdmittedPrefix(s[..|s| - 1], k);
      assert s[..|s| - 1][..k] == s[..k];
    }
  }

  lemma {:induction false} Spacing(s: seq<int>, i: nat, j: nat)
    requires Admitted(s) && i < j < |s|
    ensures s[i] + RPC_INTERVAL_MS <= s[j]
    decreases |s|
  {
    var front := s[..|s| - 1];
    if j < |s| - 1 {
      Spacing(front, i, j);
    } else {
      assert BudgetAfter(front).nextRpc == front[|front| - 1] + RPC_INTERVAL_MS;
      if i < j - 1 {
        Spacing(front, i, j - 1);
      }
    }
  }

  /** The current window opened with the grant that is `count` places from the
      end, at least WINDOW_MS after the window before it. */
  lemma {:induction false} WindowStart(s: seq<int>)
    requires Admitted(s)
    ensures BudgetAfter(s).count <= MAX_ACCOUNT_RPCS && BudgetAfter(s).count <= |s|
    ensures var k := |s| - BudgetAfter(s).count;
      0 < k ==> k < |s| && BudgetAfter(s).window == s[k] && BudgetAfter(s[..k]).window + WINDOW_MS <= s[k]
  {
    if s != [] {
      var front := s[..|s| - 1];
      WindowStart(front);
      var k := |s| - BudgetAfter(s).count;
      if k < |s| - 1 {
        assert front[..k] == s[..k];
      }
    }
  }

  lemma {:induction false} TwoWindows(s: seq<int>)
    requires Admitted(s) && |s| > 2 * MAX_ACCOUNT_RPCS
    ensures s[|s| - 1 - 2 * MAX_ACCOUNT_RPCS] + WINDOW_MS <= s[|s| - 1]
  {
    var n := |s|;
    WindowStart(s);
    var k := n - BudgetAfter(s).count;
    AdmittedPrefix(s, k);
    WindowStart(s[..k]);
    var k' := k - BudgetAfter(s[..k]).count;
    assert s[..k][k'] == s[k'];
    Spacing(s, n - 1 - 2 * MAX_ACCOUNT_RPCS, k');
    if k < n - 1 {
      Spacing(s, k, n - 1);
    }
  }

  function InWindow(s: seq<int>, from: int): (indexes: set<int>)
  {
    set i | 0 <= i < |s| && from <= s[i] < from + WINDOW_MS
  }

  function Indexes(first: int, n: nat): (r: set<int>)
  {
    if n == 0 then {} else Indexes(first, n - 1) + {first + n - 1}
  }

  lemma {:induction false} IndexesFacts(first: int, n: nat, i: int)
    ensures |Indexes(first, n)| <= n
    ensures first <= i < first + n ==> i in Indexes(first, n)
  {
    if n > 0 {
      IndexesFacts(first, n - 1, i);
    }
  }

  /** Grants beyond twice the budget lie outside any interval that holds the first one. */
  lemma BeyondWindow(s: seq<int>, i: nat, j: nat)
    requires Admitted(s) && i + 2 * MAX_ACCOUNT_RPCS <= j < |s|
    ensures s[i] + WINDOW_MS <= s[j]
  {
    var k := i + 2 * MAX_ACCOUNT_RPCS;
    AdmittedPrefix(s, k + 1);
    TwoWindows(s[..k + 1]);
    if k < j {
      Spacing(s, k, j);
    }
  }

  /** However the fixed windows fall, no half-open interval of WINDOW_MS holds more
      than twice the budget of one window. */
  lemma SlidingWindow(s: seq<int>, from: int)
    requires Admitted(s)
    ensures |InWindow(s, from)| <= 2 * MAX_ACCOUNT_RPCS
  {
    var first := 0;
    while first < |s| && s[first] < from
      invariant 0 <= first <= |s|
      invariant forall i :: 0 <= i < first ==> s[i] < from
    {
      first := first + 1;
    }
    var span := Indexes(first, 2 * MAX_ACCOUNT_RPCS);
    forall i | i in InWindow(s, from) ensures i in span {
      if first + 2 * MAX_ACCOUNT_RPCS <= i {
        BeyondWindow(s, first, i);
        assert false;
      }
      IndexesFacts(first, 2 * MAX_ACCOUNT_RPCS, i);
    }
    IndexesFacts(first, 2 * MAX_ACCOUNT_RPCS, first);
    assert span == InWindow(s, from) + (span - InWindow(s, from));
  }

  // ---- Reading the log ----

  /** Stamps of the grants of one account, oldest first. */
  function Grants(log: seq<Event>, account: string): (s: seq<int>)
  {
    if log == [] then []
    else
      var e := log[|log| - 1];
      Grants(log[..|log| - 1], account) + (if e.Granted? && e.lease.account == account then [e.at] else [])
  }

  /** Who acquired the account last. */
  function LastHolder(log: seq<Event>, account: string): (h: Option<Lease>)
  {
    if log == [] then None
    else
      var e := log[|log| - 1];
      if e.Acquired? && e.lease.account == account then Some(e.lease)
      else LastHolder(log[..|log| - 1], account)
  }

  predicate AuthLatched(log: seq<Event>, account: string)
  {
    log != [] && (
      var e := log[|log| - 1];
      if e.AuthPaused? && e.lease.account == account then true
      else if e.Resumed? && e.account == account && e.auth then false
      else AuthLatched(log[..|log| - 1], account))
  }

  predicate ServiceLatched(log: seq<Event>, account: string)
  {
    log != [] && (
      var e := log[|log| - 1];
      if e.ServicePaused? && e.lease.account == account then true
      else if e.Resumed? && e.account == account && e.service then false
      else ServiceLatched(log[..|log| - 1], account))
  }

  /** The cooldown in force: the last one that was set. */
  function Cooldown(log: seq<Event>): (c: int)
  {
    if log == [] then 0
    else
      var e := log[|log| - 1];
      if e.RatePaused? then e.cooldown else Cooldown(log[..|log| - 1])
  }

  /** The instant until which the last acquisition or grant keeps others out. */
  function HeldUntil(log: seq<Event>, account: string): (at: Option<int>)
  {
    if log == [] then None
    else
      var e := log[|log| - 1];
      if (e.Acquired? || e.Granted?) && e.lease.account == account then Some(e.at + LEASE_MS)
      else if e.Released? && e.lease.account == account && LastHolder(log, account) == Some(e.lease) then None
      else HeldUntil(log[..|log| - 1], account)
  }

  // ---- The rules every event obeys ----

  predicate ActsAs(e: Event)
  {
    e.Granted? || e.AuthPaused? || e.ServicePaused? || e.RatePaused? || e.Completed?
  }

  /** `e` is a lawful next event after `log`. */
  predicate Lawful(log: seq<Event>, e: Event)
  {
    && (ActsAs(e) ==> LastHolder(log, e.lease.account) == Some(e.lease))
    && (e.Granted? ==>
      && !AuthLatched(log, e.lease.account) && !ServiceLatched(log, e.lease.account)
      && Cooldown(log) <= e.at
      && Admitted(Grants(log, e.lease.account) + [e.at]))
    && (e.Acquired? ==>
      && !AuthLatched(log, e.lease.account) && !ServiceLatched(log, e.lease.account)
      && Cooldown(log) <= e.at
      && var until := HeldUntil(log, e.lease.account); until.Some? ==> until.value <= e.at)
    && (e.RatePaused? ==> Cooldown(log) <= e.cooldown)
  }

  predicate LawfulLog(log: seq<Event>)
  {
    log == [] || (LawfulLog(log[..|log| - 1]) && Lawful(log[..|log| - 1], log[|log| - 1]))
  }

  /** The row of an account is what the log says about it. */
  predicate RowMatches(row: Account, log: seq<Event>, account: string)
  {
    && BudgetOf(row) == BudgetAfter(Grants(log, account)) && Admitted(Grants(log, account))
    && row.authPaused == AuthLatched(log, account)
    && row.servicePaused == ServiceLatched(log, account)
    && (row.owner.Some? ==> LastHolder(log, account) == Some(Lease(row.owner.value, account)))
    && (if row.owner.Some? then HeldUntil(log, account) == Some(row.expires)
        else HeldUntil(log, account) == None)
  }

  ghost predicate Inv(w: World)
  {
    && LawfulLog(w.log)
    && w.db.cooldown == Cooldown(w.log)
    && forall account :: RowMatches(Row(w.db, account), w.log, account)
  }

  lemma Appended(log: seq<Event>, e: Event)
    ensures (log + [e])[..|log|] == log && (log + [e])[|log|] == e
  {
  }

  function AccountOf(e: Event): (account: string)
  {
    if e.Resumed? then e.account else e.lease.account
  }

  lemma OtherAccount(row: Account, log: seq<Event>, e: Event, account: string)
    requires RowMatches(row, log, account) && AccountOf(e) != account
    ensures RowMatches(row, log + [e], account)
  {
    Appended(log, e);
    assert Grants(log + [e], account) == Grants(log, account);
  }

  lemma LoggedInv(w: World, w': World, e: Event)
    requires Inv(w) && w'.log == w.log + [e]
    requires Lawful(w.log, e)
    requires w'.db.cooldown == if e.RatePaused? then e.cooldown else w.db.cooldown
    requires forall account :: account != AccountOf(e) ==> Row(w'.db, account) == Row(w.db, account)
    requires RowMatches(Row(w'.db, AccountOf(e)), w.log + [e], AccountOf(e))
    ensures Inv(w')
  {
    Appended(w.log, e);
    forall account ensures RowMatches(Row(w'.db, account), w'.log, account) {
      if account != AccountOf(e) {
        assert RowMatches(Row(w.db, account), w.log, account);
        OtherAccount(Row(w.db, account), w.log, e, account);
      }
    }
  }

  lemma RpcInv(w: World, l: Lease, now: int)
    requires Inv(w)
    ensures Inv(Step(w, DoRpc(l, now)))
  {
    var r := Attempt(w.db, l, now);
    if r.1.Done? {
      var e := Granted(l, now);
      var row := Row(w.db, l.account);
      assert RowMatches(row, w.log, l.account);
      Appended(w.log, e);
      var stamps := Grants(w.log, l.account);
      assert (stamps + [now])[..|stamps|] == stamps;
      assert Grants(w.log + [e], l.account) == stamps + [now];
      LoggedInv(w, Step(w, DoRpc(l, now)), e);
    }
  }

  lemma EnterInv(w: World, l: Lease, now: int)
    requires Inv(w)
    ensures Inv(Step(w, DoEnter(l, now)))
  {
    var e := Acquired(l, now);
    var w' := Step(w, DoEnter(l, now));
    if w' != w {
      assert RowMatches(Row(w.db, l.account), w.log, l.account);
      Appended(w.log, e);
      assert Grants(w.log + [e], l.account) == Grants(w.log, l.account);
      LoggedInv(w, w', e);
    }
  }

  lemma ExitInv(w: World, l: Lease)
    requires Inv(w)
    ensures Inv(Step(w, DoExit(l)))
  {
    if l in w.entered {
      var e := Released(l);
      assert RowMatches(Row(w.db, l.account), w.log, l.account);
      Appended(w.log, e);
      assert Grants(w.log + [e], l.account) == Grants(w.log, l.account);
      LoggedInv(w, Step(w, DoExit(l)), e);
    }
  }

  lemma AuthRow(row: Account, log: seq<Event>, l: Lease)
    requires RowMatches(row, log, l.account)
    ensures RowMatches(row.(authPaused := true), log + [AuthPaused(l)], l.account)
  {
    hide Admitted, BudgetAfter;
    Appended(log, AuthPaused(l));
    assert Grants(log + [AuthPaused(l)], l.account) == Grants(log, l.account);
  }

  lemma AuthInv(w: World, l: Lease, now: int)
    requires Inv(w)
    ensures Inv(Step(w, DoPauseAuth(l, now)))
  {
    hide RowMatches;
    if Owns(w.db, l, now) {
      OwnerHolds(w, l, now);
      AuthRow(w.db.accounts[l.account], w.log, l);
      LoggedInv(w, Step(w, DoPauseAuth(l, now)), AuthPaused(l));
    }
  }

  lemma ServiceRow(row: Account, log: seq<Event>, l: Lease)
    requires RowMatches(row, log, l.account)
    ensures RowMatches(row.(servicePaused := true), log + [ServicePaused(l)], l.account)
  {
    hide Admitted, BudgetAfter;
    Appended(log, ServicePaused(l));
    assert Grants(log + [ServicePaused(l)], l.account) == Grants(log, l.account);
  }

  lemma ServiceInv(w: World, l: Lease, now: int)
    requires Inv(w)
    ensures Inv(Step(w, DoPauseService(l, now)))
  {
    hide RowMatches;
    if Owns(w.db, l, now) {
      OwnerHolds(w, l, now);
      ServiceRow(w.db.accounts[l.account], w.log, l);
      LoggedInv(w, Step(w, DoPauseService(l, now)), ServicePaused(l));
    }
  }

  /** An event that is about no row. */
  lemma SameRow(row: Account, log: seq<Event>, e: Event, account: string)
    requires RowMatches(row, log, account) && (e.RatePaused? || e.Completed?)
    ensures RowMatches(row, log + [e], account)
  {
    hide Admitted, BudgetAfter;
    Appended(log, e);
    assert Grants(log + [e], account) == Grants(log, account);
  }

  lemma RateInv(w: World, l: Lease, now: int)
    requires Inv(w)
    ensures Inv(Step(w, DoPauseRate(l, now)))
  {
    hide RowMatches;
    if Owns(w.db, l, now) {
      var e := RatePaused(l, PauseRate(w.db, l, now).0.cooldown);
      OwnerHolds(w, l, now);
      SameRow(w.db.accounts[l.account], w.log, e, l.account);
      LoggedInv(w, Step(w, DoPauseRate(l, now)), e);
    }
  }

  lemma CompleteInv(w: World, l: Lease, now: int)
    requires Inv(w)
    ensures Inv(Step(w, DoComplete(l, now)))
  {
    hide RowMatches;
    if Owns(w.db, l, now) {
      OwnerHolds(w, l, now);
      SameRow(w.db.accounts[l.account], w.log, Completed(l, now), l.account);
      LoggedInv(w, Step(w, DoComplete(l, now)), Completed(l, now));
    }
  }

  /** A lease that owns its account is the one that acquired it last. */
  lemma OwnerHolds(w: World, l: Lease, now: int)
    requires Inv(w) && Owns(w.db, l, now)
    ensures RowMatches(w.db.accounts[l.account], w.log, l.account) && LastHolder(w.log, l.account) == Some(l)
  {
    hide Admitted, BudgetAfter;
    assert RowMatches(Row(w.db, l.account), w.log, l.account);
  }

  lemma ResumedRow(row: Account, log: seq<Event>, account: string, auth: bool, service: bool)
    requires RowMatches(row, log, account)
    ensures RowMatches(row.(authPaused := row.authPaused && !auth, servicePaused := row.servicePaused && !service),
                       log + [Resumed(account, auth, service)], account)
  {
    hide Admitted, BudgetAfter;
    var e := Resumed(account, auth, service);
    Appended(log, e);
    assert Grants(log + [e], account) == Grants(log, account);
  }

  lemma ResumeInv(w: World, account: string, auth: bool, service: bool, now: int)
    requires Inv(w)
    ensures Inv(Step(w, DoResume(account, auth, service, now)))
  {
    hide RowMatches;
    var w' := Step(w, DoResume(account, auth, service, now));
    var row := Row(w.db, account);
    var row' := row.(authPaused := row.authPaused && !auth, servicePaused := row.servicePaused && !service);
    if w' != w {
      assert RowMatches(row, w.log, account);
      ResumedRow(row, w.log, account, auth, service);
      assert Row(w'.db, account) == row';
      LoggedInv(w, w', Resumed(account, auth, service));
    }
  }

  lemma StepInv(w: World, a: Action)
    requires Inv(w)
    ensures Inv(Step(w, a))
  {
    match a
    case DoEnter(l, now) => EnterInv(w, l, now);
    case DoExit(l) => ExitInv(w, l);
    case DoRpc(l, now) => RpcInv(w, l, now);
    case DoResume(account, auth, service, now) => ResumeInv(w, account, auth, service, now);
    case DoPauseAuth(l, now) => AuthInv(w, l, now);
    case DoPauseService(l, now) => ServiceInv(w, l, now);
    case DoPauseRate(l, now) => RateInv(w, l, now);
    case DoComplete(l, now) => CompleteInv(w, l, now);
  }

  lemma {:induction false} RunInv(w: World, actions: seq<Action>)
    requires Inv(w)
    ensures Inv(Run(w, actions))
    decreases |actions|
  {
    if actions != [] {
      StepInv(w, actions[0]);
      RunInv(Step(w, actions[0]), actions[1..]);
    }
  }

  // ---- The claims ----

  /** Grants of one account are spaced, and sparse in every window of time, however
      the leases interleave and whatever the clocks read. */
  lemma GrantsAreBounded(actions: seq<Action>, account: string, from: int, i: nat, j: nat)
    ensures var s := Grants(Run(START, actions).log, account);
      && (i < j < |s| ==> s[i] + RPC_INTERVAL_MS <= s[j])
      && |InWindow(s, from)| <= 2 * MAX_ACCOUNT_RPCS
  {
    RunInv(START, actions);
    var w := Run(START, actions);
    assert RowMatches(Row(w.db, account), w.log, account);
    var s := Grants(w.log, account);
    if i < j < |s| {
      Spacing(s, i, j);
    }
    SlidingWindow(s, from);
  }

  lemma {:induction false} LawfulAt(log: seq<Event>, k: nat)
    requires LawfulLog(log) && k < |log|
    ensures Lawful(log[..k], log[k])
    decreases |log|
  {
    if k < |log| - 1 {
      LawfulAt(log[..|log| - 1], k);
      assert log[..|log| - 1][..k] == log[..k];
    }
  }

  lemma {:induction false} HolderAfter(log: seq<Event>, i: nat, k: nat)
    requires i < k <= |log| && log[i].Acquired?
    requires forall m :: i < m < k ==> !(log[m].Acquired? && log[m].lease.account == log[i].lease.account)
    ensures LastHolder(log[..k], log[i].lease.account) == Some(log[i].lease)
    decreases k
  {
    assert log[..k][..k - 1] == log[..k - 1];
    if i < k - 1 {
      HolderAfter(log, i, k - 1);
    }
  }

  /** Fencing: after another lease has acquired the account, the earlier one gets no
      grant, pause or completion until it acquires the account again. */
  lemma EarlierHolderIsFenced(actions: seq<Action>, i: nat, k: nat)
    requires var log := Run(START, actions).log;
      && i < k < |log| && log[i].Acquired? && ActsAs(log[k])
      && log[k].lease.account == log[i].lease.account && log[k].lease != log[i].lease
    ensures var log := Run(START, actions).log;
      exists m :: i < m < k && log[m].Acquired? && log[m].lease == log[k].lease
  {
    RunInv(START, actions);
    var log := Run(START, actions).log;
    LawfulAt(log, k);
    var account := log[i].lease.account;
    var m := LastAcquired(log, i, k);
    HolderAfter(log, m, k);
  }

  lemma LastAcquired(log: seq<Event>, i: nat, k: nat) returns (m: nat)
    requires i < k <= |log| && log[i].Acquired?
    ensures i <= m < k && log[m].Acquired? && log[m].lease.account == log[i].lease.account
    ensures forall n :: m < n < k ==> !(log[n].Acquired? && log[n].lease.account == log[i].lease.account)
  {
    m := i;
    for n := i + 1 to k
      invariant i <= m < n && log[m].Acquired? && log[m].lease.account == log[i].lease.account
      invariant forall q :: m < q < n ==> !(log[q].Acquired? && log[q].lease.account == log[i].lease.account)
    {
      if log[n].Acquired? && log[n].lease.account == log[i].lease.account {
        m := n;
      }
    }
  }

  lemma {:induction false} LatchStays(log: seq<Event>, i: nat, k: nat)
    requires i < k <= |log| && (log[i].AuthPaused? || log[i].ServicePaused?)
    requires forall m :: i < m < k ==> !(log[m].Resumed? && log[m].account == log[i].lease.account
                                         && if log[i].AuthPaused? then log[m].auth else log[m].service)
    ensures if log[i].AuthPaused? then AuthLatched(log[..k], log[i].lease.account)
            else ServiceLatched(log[..k], log[i].lease.account)
    decreases k
  {
    assert log[..k][..k - 1] == log[..k - 1];
    if i < k - 1 {
      LatchStays(log, i, k - 1);
    }
  }

  /** Latches: between a pause and a later grant or acquisition of the account there
      is an operator's resume of that kind. */
  lemma PausesNeedResume(actions: seq<Action>, i: nat, k: nat)
    requires var log := Run(START, actions).log;
      && i < k < |log| && (log[i].AuthPaused? || log[i].ServicePaused?)
      && (log[k].Granted? || log[k].Acquired?) && log[k].lease.account == log[i].lease.account
    ensures var log := Run(START, actions).log;
      exists m :: i < m < k && log[m].Resumed? && log[m].account == log[i].lease.account
                  && if log[i].AuthPaused? then log[m].auth else log[m].service
  {
    RunInv(START, actions);
    var log := Run(START, actions).log;
    LawfulAt(log, k);
    if forall m :: i < m < k ==> !(log[m].Resumed? && log[m].account == log[i].lease.account
                                   && if log[i].AuthPaused? then log[m].auth else log[m].service) {
      LatchStays(log, i, k);
      assert false;
    }
  }

  lemma {:induction false} CooldownGrows(log: seq<Event>, i: nat, k: nat)
    requires LawfulLog(log) && i <= k <= |log|
    ensures Cooldown(log[..i]) <= Cooldown(log[..k])
    decreases k
  {
    if i < k {
      CooldownGrows(log, i, k - 1);
      LawfulAt(log, k - 1);
      assert log[..k][..k - 1] == log[..k - 1];
    }
  }

  /** The global cooldown never decreases, and no grant or acquisition of any
      account has a stamp below one that was set before it. */
  lemma CooldownBindsEveryAccount(actions: seq<Action>, i: nat, k: nat)
    requires i < k < |Run(START, actions).log| && Run(START, actions).log[i].RatePaused?
    ensures var log := Run(START, actions).log;
      && (log[k].RatePaused? ==> log[i].cooldown <= log[k].cooldown)
      && (log[k].Granted? || log[k].Acquired? ==> log[i].cooldown <= log[k].at)
    ensures Run(START, actions).log[i].cooldown <= Run(START, actions).db.cooldown
  {
    RunInv(START, actions);
    var log := Run(START, actions).log;
    assert log[..i + 1][..i] == log[..i];
    assert Cooldown(log[..i + 1]) == log[i].cooldown;
    CooldownGrows(log, i + 1, k);
    LawfulAt(log, k);
    CooldownGrows(log, i + 1, |log|);
    assert log[..|log|] == log;
  }

  /** Nothing after i hands the account over or gives it up: others may still leave leases that they
      have lost. */
  predicate KeptSince(log: seq<Event>, i: nat, k: nat)
    requires i < k <= |log| && (log[i].Acquired? || log[i].Granted?)
  {
    forall m :: i < m < k && !log[m].Resumed? && log[m].lease.account == log[i].lease.account ==>
      !log[m].Acquired? && !log[m].Granted? && !(log[m].Released? && log[m].lease == log[i].lease)
  }

  lemma {:induction false} HeldSince(log: seq<Event>, i: nat, k: nat)
    requires LawfulLog(log) && i < k <= |log| && (log[i].Acquired? || log[i].Granted?) && KeptSince(log, i, k)
    ensures LastHolder(log[..k], log[i].lease.account) == Some(log[i].lease)
    ensures HeldUntil(log[..k], log[i].lease.account) == Some(log[i].at + LEASE_MS)
    decreases k
  {
    assert log[..k][..k - 1] == log[..k - 1];
    if i < k - 1 {
      HeldSince(log, i, k - 1);
    } else {
      LawfulAt(log, i);
    }
  }

  /** Exclusivity with expiry: a lease can be taken over only LEASE_MS after its last acquisition or
      grant, unless it was released itself; the exit of a lease that was lost before does not count. */
  lemma TakeoverWaitsForExpiry(actions: seq<Action>, i: nat, k: nat)
    requires var log := Run(START, actions).log;
      && i < k < |log| && (log[i].Acquired? || log[i].Granted?) && KeptSince(log, i, k)
      && log[k].Acquired? && log[k].lease.account == log[i].lease.account
    ensures var log := Run(START, actions).log; log[i].at + LEASE_MS <= log[k].at
  {
    RunInv(START, actions);
    var log := Run(START, actions).log;
    LawfulAt(log, k);
    HeldSince(log, i, k);
  }
}
