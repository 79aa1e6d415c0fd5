/** Account leases over one shared database: each transaction is one atomic step,
    and any number of leases and clock readings may interleave.

    Every step that takes effect is written to a log; the claims of
    CoordinationRuns.dfy are about that log.
  */
module Coordination {
  import opened Options

  const LEASE_MS: int := 12 * 60 * 1000
  const WINDOW_MS: int := 5 * 60 * 1000
  const MAX_ACCOUNT_RPCS: nat := 44
  const RPC_INTERVAL_MS: int := 1000

  /** One row of `accounts`; an absent owner is the source's empty string. */
  datatype Account = Account(
    owner: Option<nat>, expires: int, nextRpc: int, window: int, count: nat,
    authPaused: bool, servicePaused: bool)

  const NEW_ACCOUNT: Account := Account(None, 0, 0, 0, 0, false, false)

  datatype Database = Database(accounts: map<string, Account>, cooldown: int, failures: nat)

  const PROVISIONED: Database := Database(map[], 0, 0)

  /** A lease object: its random owner token and the account it is for. */
  datatype Lease = Lease(owner: nat, account: string)

  datatype Answer =
    | Done
    | Wait(delay: int)
    | Refused(code: string)

  function Row(db: Database, account: string): (row: Account)
  {
    if account in db.accounts then db.accounts[account] else NEW_ACCOUNT
  }

  predicate Held(row: Account, now: int)
  {
    row.owner.Some? && row.expires > now
  }

  /** `_owned`. */
  predicate Owns(db: Database, lease: Lease, now: int)
  {
    && lease.account in db.accounts
    && db.accounts[lease.account].owner == Some(lease.owner)
    && db.accounts[lease.account].expires > now
  }

  function WithRow(db: Database, account: string, row: Account): (r: Database)
  {
    db.(accounts := db.accounts[account := row])
  }

  // ---- One function per transaction: the new database and the answer ----

  /** The transaction of `__enter__`. */
  function Enter(db: Database, lease: Lease, now: int): (r: (Database, Answer))
  {
    var row := Row(db, lease.account);
    if db.cooldown > now then (db, Refused("rate_limited"))
    else if row.authPaused then (db, Refused("unauthorized"))
    else if row.servicePaused then (db, Refused("service_rejected"))
    else if Held(row, now) then (db, Refused("account_busy"))
    else (WithRow(db, lease.account, row.(owner := Some(lease.owner), expires := now + LEASE_MS)), Done)
  }

  /** The transaction of `__exit__`. */
  function Exit(db: Database, lease: Lease): (r: Database)
  {
    if lease.account in db.accounts && db.accounts[lease.account].owner == Some(lease.owner)
    then WithRow(db, lease.account, db.accounts[lease.account].(owner := None, expires := 0))
    else db
  }

  datatype Budget = Budget(window: int, count: nat, nextRpc: int)

  /** The window a grant at `now` falls in, with the grants made in it so far. */
  function Rolled(b: Budget, now: int): (r: Budget)
  {
    if now >= b.window + WINDOW_MS then b.(window := now, count := 0) else b
  }

  function Spent(b: Budget, now: int): (r: Budget)
  {
    Rolled(b, now).(count := Rolled(b, now).count + 1, nextRpc := now + RPC_INTERVAL_MS)
  }

  function BudgetOf(row: Account): (b: Budget)
  {
    Budget(row.window, row.count, row.nextRpc)
  }

  /** One iteration of the loop of `before_rpc`. */
  function Attempt(db: Database, lease: Lease, now: int): (r: (Database, Answer))
  {
    if !Owns(db, lease, now) then (db, Refused("lease_lost"))
    else
      var row := db.accounts[lease.account];
      if db.cooldown > now then (db, Refused("rate_limited"))
      else if row.authPaused then (db, Refused("unauthorized"))
      else if row.servicePaused then (db, Refused("service_rejected"))
      else if row.nextRpc > now then (db, Wait(row.nextRpc - now))
      else if Rolled(BudgetOf(row), now).count >= MAX_ACCOUNT_RPCS then (db, Refused("budget_exhausted"))
      else
        var b := Spent(BudgetOf(row), now);
        (WithRow(db, lease.account,
                 row.(window := b.window, count := b.count, nextRpc := b.nextRpc, expires := now + LEASE_MS)), Done)
  }

  function PauseAuth(db: Database, lease: Lease, now: int): (r: (Database, Answer))
  {
    if !Owns(db, lease, now) then (db, Refused("lease_lost"))
    else (WithRow(db, lease.account, db.accounts[lease.account].(authPaused := true)), Done)
  }

  function PauseService(db: Database, lease: Lease, now: int): (r: (Database, Answer))
  {
    if !Owns(db, lease, now) then (db, Refused("lease_lost"))
    else (WithRow(db, lease.account, db.accounts[lease.account].(servicePaused := true)), Done)
  }

  /** Minutes of back-off: 15, 30, then 60. */
  function BackoffMinutes(failures: nat): (m: int)
  {
    if failures <= 1 then 15 else if failures == 2 then 30 else 60
  }

  function MaxInt(a: int, b: int): (m: int) { if a < b then b else a }

  function PauseRate(db: Database, lease: Lease, now: int): (r: (Database, Answer))
  {
    if !Owns(db, lease, now) then (db, Refused("lease_lost"))
    else
      (db.(cooldown := MaxInt(db.cooldown, now + BackoffMinutes(db.failures + 1) * 60000),
           failures := db.failures + 1), Done)
  }

  function Complete(db: Database, lease: Lease, now: int): (r: (Database, Answer))
  {
    if !Owns(db, lease, now) then (db, Refused("lease_lost"))
    else (if db.cooldown <= now then db.(failures := 0) else db, Done)
  }

  /** The operator's acknowledgement. */
  function Resume(db: Database, account: string, auth: bool, service: bool, now: int): (r: (Database, Answer))
  {
    var row := Row(db, account);
    if account in db.accounts && Held(row, now) then (db, Refused("account_busy"))
    else if account !in db.accounts then (db, Done)
    else (WithRow(db, account, row.(authPaused := row.authPaused && !auth,
                                    servicePaused := row.servicePaused && !service)), Done)
  }

  // ---- The world of interleaved leases ----

  datatype Event =
    | Acquired(lease: Lease, at: int)
    | Released(lease: Lease)
    | Granted(lease: Lease, at: int)
    | AuthPaused(lease: Lease)
    | ServicePaused(lease: Lease)
    | RatePaused(lease: Lease, cooldown: int)
    | Completed(lease: Lease, at: int)
    | Resumed(account: string, auth: bool, service: bool)

  /** `entered`: the lease objects whose `acquired` flag is set. */
  datatype World = World(db: Database, entered: set<Lease>, log: seq<Event>)

  const START: World := World(PROVISIONED, {}, [])

  datatype Action =
    | DoEnter(lease: Lease, now: int)
    | DoExit(lease: Lease)
    | DoRpc(lease: Lease, now: int)
    | DoPauseAuth(lease: Lease, now: int)
    | DoPauseService(lease: Lease, now: int)
    | DoPauseRate(lease: Lease, now: int)
    | DoComplete(lease: Lease, now: int)
    | DoResume(account: string, auth: bool, service: bool, now: int)

  function Logged(w: World, r: (Database, Answer), e: Event): (w': World)
  {
    if r.1.Done? then World(r.0, w.entered, w.log + [e]) else w
  }

  function Step(w: World, a: Action): (w': World)
  {
    match a
    case DoEnter(l, now) =>
      var r := Enter(w.db, l, now);
      if l in w.entered || !r.1.Done? then w
      else World(r.0, w.entered + {l}, w.log + [Acquired(l, now)])
    case DoExit(l) =>
      if l !in w.entered then w
      else World(Exit(w.db, l), w.entered - {l}, w.log + [Released(l)])
    case DoRpc(l, now) => Logged(w, Attempt(w.db, l, now), Granted(l, now))
    case DoPauseAuth(l, now) => Logged(w, PauseAuth(w.db, l, now), AuthPaused(l))
    case DoPauseService(l, now) => Logged(w, PauseService(w.db, l, now), ServicePaused(l))
    case DoPauseRate(l, now) =>
      Logged(w, PauseRate(w.db, l, now), RatePaused(l, PauseRate(w.db, l, now).0.cooldown))
    case DoComplete(l, now) => Logged(w, Complete(w.db, l, now), Completed(l, now))
    case DoResume(account, auth, service, now) =>
      Logged(w, Resume(w.db, account, auth, service, now), Resumed(account, auth, service))
  }

  function Run(w: World, actions: seq<Action>): (w': World)
    decreases |actions|
  {
    if actions == [] then w else Run(Step(w, actions[0]), actions[1..])
  }
}
