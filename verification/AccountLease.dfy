/** The lease object and the shared rows it updates in place. */
module AccountLease {
  import opened Options
  import opened Coordination

  /** The SQLite file: the `accounts` table and the single `policy` row. */
  class Store {
    var accounts: map<string, Account>
    var cooldown: int
    var failures: nat

    constructor Provision()
      ensures Rows() == PROVISIONED
    {
      accounts, cooldown, failures := map[], 0, 0;
    }

    ghost function Rows(): (db: Database)
      reads this
    {
      Database(accounts, cooldown, failures)
    }

    /** While a lease sleeps, other processes leave the file in any state. */
    method Become(db: Database)
      modifies this
      ensures Rows() == db
    {
      accounts, cooldown, failures := db.accounts, db.cooldown, db.failures;
    }

    method Resume(account: string, auth: bool, service: bool, now: int) returns (answer: Answer)
      modifies this
      ensures (Rows(), answer) == Coordination.Resume(old(Rows()), account, auth, service, now)
    {
      if account !in accounts {
        return Done;
      }
      var row := accounts[account];
      if row.owner.Some? && row.expires > now {
        return Refused("account_busy");
      }
      if auth {
        row := row.(authPaused := false);
      }
      if service {
        row := row.(servicePaused := false);
      }
      accounts := accounts[account := row];
      answer := Done;
    }
  }

  class AccountLease {
    const store: Store
    const lease: Lease
    var acquired: bool

    constructor (store: Store, lease: Lease)
      ensures this.store == store && this.lease == lease && !acquired
    {
      this.store, this.lease, acquired := store, lease, false;
    }

    /** `__enter__`. */
    method Enter(now: int) returns (answer: Answer)
      modifies this, store
      ensures old(acquired) ==> answer == Refused("account_busy") && store.Rows() == old(store.Rows()) && acquired
      ensures !old(acquired) ==> (store.Rows(), answer) == Coordination.Enter(old(store.Rows()), lease, now)
      ensures !old(acquired) ==> acquired == answer.Done?
    {
      if acquired {
        return Refused("account_busy");
      }
      if store.cooldown > now {
        return Refused("rate_limited");
      }
      var row := if lease.account in store.accounts then store.accounts[lease.account] else NEW_ACCOUNT;
      if row.authPaused {
        return Refused("unauthorized");
      }
      if row.servicePaused {
        return Refused("service_rejected");
      }
      if row.owner.Some? && row.expires > now {
        return Refused("account_busy");
      }
      store.accounts := store.accounts[lease.account := row.(owner := Some(lease.owner), expires := now + LEASE_MS)];
      acquired := true;
      answer := Done;
    }

    /** `__exit__`. */
    method Exit()
      modifies this, store
      ensures !acquired
      ensures store.Rows() == if old(acquired) then Coordination.Exit(old(store.Rows()), lease) else old(store.Rows())
    {
      if acquired {
        if lease.account in store.accounts && store.accounts[lease.account].owner == Some(lease.owner) {
          var row := store.accounts[lease.account];
          store.accounts := store.accounts[lease.account := row.(owner := None, expires := 0)];
        }
        acquired := false;
      }
    }

    /** `before_rpc`: attempts until one does not have to wait. `clocks` are the readings before
        the attempts and `others` the steps of other processes during each sleep; the loop ends
        early when the readings run out. `world` is the whole world as the call finds it. */
    method BeforeRpc(clocks: seq<int>, world: World, others: seq<seq<Action>>) returns (answer: Answer, tries: nat)
      requires 0 < |clocks| <= |others| + 1 && store.Rows() == world.db
      modifies store
      ensures 1 <= tries <= |clocks|
      ensures (store.Rows(), answer) == Attempt(Asking(world, lease, clocks, others, tries - 1).db, lease,
              clocks[tries - 1])
      ensures forall t :: 0 <= t < tries - 1 ==>
              Attempt(Asking(world, lease, clocks, others, t).db, lease, clocks[t]).1.Wait?
      ensures answer.Wait? ==> tries == |clocks|
    {
      hide Attempt, Step, Run;
      var meanwhile := world;
      tries := 1;
      answer := TryRpc(clocks[0]);
      while answer.Wait? && tries < |clocks|
        invariant 1 <= tries <= |clocks| && meanwhile == Asking(world, lease, clocks, others, tries - 1)
        invariant (store.Rows(), answer) == Attempt(meanwhile.db, lease, clocks[tries - 1])
        invariant forall t :: 0 <= t < tries - 1 ==>
                  Attempt(Asking(world, lease, clocks, others, t).db, lease, clocks[t]).1.Wait?
        decreases |clocks| - tries
      {
        meanwhile := Run(Step(meanwhile, DoRpc(lease, clocks[tries - 1])), others[tries - 1]);
        store.Become(meanwhile.db);
        answer := TryRpc(clocks[tries]);
        tries := tries + 1;
      }
    }

    method CheckOwned(now: int) returns (ok: bool)
      ensures ok == Owns(store.Rows(), lease, now)
    {
      ok := false;
      if lease.account in store.accounts {
        var row := store.accounts[lease.account];
        ok := row.owner == Some(lease.owner) && row.expires > now;
      }
    }

    method TryRpc(now: int) returns (answer: Answer)
      modifies store
      ensures (store.Rows(), answer) == Attempt(old(store.Rows()), lease, now)
    {
      var owned := CheckOwned(now);
      if !owned {
        return Refused("lease_lost");
      }
      var row := store.accounts[lease.account];
      if store.cooldown > now {
        return Refused("rate_limited");
      }
      if row.authPaused {
        return Refused("unauthorized");
      }
      if row.servicePaused {
        return Refused("service_rejected");
      }
      var delay := MaxInt(0, row.nextRpc - now);
      if delay != 0 {
        return Wait(delay);
      }
      var window, count := row.window, row.count;
      if now >= window + WINDOW_MS {
        window, count := now, 0;
      }
      if count >= MAX_ACCOUNT_RPCS {
        return Refused("budget_exhausted");
      }
      row := row.(window := window, count := count + 1, nextRpc := now + RPC_INTERVAL_MS, expires := now + LEASE_MS);
      store.accounts := store.accounts[lease.account := row];
      answer := Done;
    }

    method PauseAuth(now: int) returns (answer: Answer)
      modifies store
      ensures (store.Rows(), answer) == Coordination.PauseAuth(old(store.Rows()), lease, now)
    {
      var owned := CheckOwned(now);
      if !owned {
        return Refused("lease_lost");
      }
      store.accounts := store.accounts[lease.account := store.accounts[lease.account].(authPaused := true)];
      answer := Done;
    }

    method PauseService(now: int) returns (answer: Answer)
      modifies store
      ensures (store.Rows(), answer) == Coordination.PauseService(old(store.Rows()), lease, now)
    {
      var owned := CheckOwned(now);
      if !owned {
        return Refused("lease_lost");
      }
      store.accounts := store.accounts[lease.account := store.accounts[lease.account].(servicePaused := true)];
      answer := Done;
    }

    method PauseRate(now: int) returns (answer: Answer)
      modifies store
      ensures (store.Rows(), answer) == Coordination.PauseRate(old(store.Rows()), lease, now)
    {
      var owned := CheckOwned(now);
      if !owned {
        return Refused("lease_lost");
      }
      store.failures := store.failures + 1;
      store.cooldown := MaxInt(store.cooldown, now + BackoffMinutes(store.failures) * 60000);
      answer := Done;
    }

    method Complete(now: int) returns (answer: Answer)
      modifies store
      ensures (store.Rows(), answer) == Coordination.Complete(old(store.Rows()), lease, now)
    {
      var owned := CheckOwned(now);
      if !owned {
        return Refused("lease_lost");
      }
      if store.cooldown <= now {
        store.failures := 0;
      }
      answer := Done;
    }
  }

  /** The world that the attempt after `t` sleeps finds. */
  function Asking(w: World, l: Lease, clocks: seq<int>, others: seq<seq<Action>>, t: nat): World
    requires t <= |clocks| && t <= |others|
  {
    if t == 0 then w
    else Run(Step(Asking(w, l, clocks, others, t - 1), DoRpc(l, clocks[t - 1])), others[t - 1])
  }

  lemma {:induction false} RunJoined(w: World, a: seq<Action>, b: seq<Action>)
    ensures Run(w, a + b) == Run(Run(w, a), b)
    decreases |a|
  {
    if a == [] {
      assert a + b == b;
    } else {
      assert (a + b)[1..] == a[1..] + b;
      RunJoined(Step(w, a[0]), a[1..], b);
    }
  }

  /** Waiting, with whatever happens during the sleeps, is one of the interleaved runs, and the last
      attempt is its last step. */
  lemma {:induction false} WaitingIsARun(w: World, l: Lease, clocks: seq<int>, others: seq<seq<Action>>, t: nat)
      returns (actions: seq<Action>)
    requires t < |clocks| && t <= |others|
    ensures Run(w, actions) == Step(Asking(w, l, clocks, others, t), DoRpc(l, clocks[t]))
    ensures Run(w, actions).db == Attempt(Asking(w, l, clocks, others, t).db, l, clocks[t]).0
  {
    hide Attempt;
    var attempt := [DoRpc(l, clocks[t])];
    assert attempt[1..] == [];
    if t == 0 {
      actions := attempt;
    } else {
      var earlier := WaitingIsARun(w, l, clocks, others, t - 1);
      RunJoined(w, earlier, others[t - 1]);
      RunJoined(w, earlier + others[t - 1], attempt);
      actions := earlier + others[t - 1] + attempt;
    }
    TransactionsAreSteps(Asking(w, l, clocks, others, t), l, "", false, false, clocks[t]);
  }

  /** What a method of a lease or the store answers and leaves is a step of the interleaved world. */
  lemma TransactionsAreSteps(w: World, l: Lease, account: string, auth: bool, service: bool, now: int)
    ensures l !in w.entered ==>
      && Step(w, DoEnter(l, now)).db == Enter(w.db, l, now).0
      && (l in Step(w, DoEnter(l, now)).entered <==> Enter(w.db, l, now).1.Done?)
    ensures l in w.entered ==> Step(w, DoEnter(l, now)) == w
    ensures Step(w, DoExit(l)).db == (if l in w.entered then Exit(w.db, l) else w.db)
            && l !in Step(w, DoExit(l)).entered
    ensures Step(w, DoRpc(l, now)).db == Attempt(w.db, l, now).0
    ensures Step(w, DoPauseAuth(l, now)).db == Coordination.PauseAuth(w.db, l, now).0
    ensures Step(w, DoPauseService(l, now)).db == Coordination.PauseService(w.db, l, now).0
    ensures Step(w, DoPauseRate(l, now)).db == Coordination.PauseRate(w.db, l, now).0
    ensures Step(w, DoComplete(l, now)).db == Coordination.Complete(w.db, l, now).0
    ensures Step(w, DoResume(account, auth, service, now)).db
            == Coordination.Resume(w.db, account, auth, service, now).0
  {
  }
}
