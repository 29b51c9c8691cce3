/** The daily quota protocol: reserve, confirm, roll back, reclaim, with expiry; each call one step. */
module Quota {
  import opened Wrappers
  import opened Tables

  // ---- whose quota an account uses ----

  predicate OwnerInApp(dir: Directory, account: Id, user: Id, app: Id) {
    || (exists b <- dir.bindings :: b.active && b.account == account && b.user == user && b.app == app)
    || (account in dir.world.residents && dir.world.residents[account].owner == user)
    || (account in dir.world.runtimeOwners && dir.world.runtimeOwners[account] == Scope(user, app))
  }

  /** `_resolve_quota_scope`: an account nobody owns is its own subject. */
  function QuotaScope(dir: Directory, account: Id): Result<Scope> {
    if account !in dir.accounts then Err(AccountNotFound)
    else
      var app := dir.accounts[account].app;
      match ResolveOwner(dir, account)
      case None => Ok(Scope(account, app))
      case Some(user) =>
        if !OwnerInApp(dir, account, user, app) then Err(ScopeMismatch)
        else if (user, app) !in dir.world.members then Err(MembershipInactive)
        else Ok(Scope(user, app))
  }

  // ---- counting ----

  function UsedFor(usage: map<QuotaKey, Usage>, key: QuotaKey): nat {
    if key in usage then usage[key].count else 0
  }

  function Held(rs: map<Id, Reservation>, key: QuotaKey): set<Id> {
    set x <- rs | rs[x].key == key
  }

  predicate Live(r: Reservation, now: int) { now < r.expiresAt }

  function HeldLive(rs: map<Id, Reservation>, key: QuotaKey, now: int): set<Id> {
    set x <- rs | rs[x].key == key && Live(rs[x], now)
  }

  function Pruned(rs: map<Id, Reservation>, subject: Id, app: Id, now: int): map<Id, Reservation> {
    map x | x in rs && !(rs[x].key.subject == subject && rs[x].key.app == app && rs[x].expiresAt <= now) :: rs[x]
  }

  function Drop(rs: map<Id, Reservation>, gone: set<Id>): map<Id, Reservation> {
    map x | x in rs && x !in gone :: rs[x]
  }

  function Incremented(usage: map<QuotaKey, Usage>, key: QuotaKey, account: Id): map<QuotaKey, Usage> {
    usage[key := if key in usage then usage[key].(count := usage[key].count + 1) else Usage(account, 1)]
  }

  // ---- specifications ----

  /** `reserve_daily_quota`, with the id it would draw; no token means the quota is full. */
  function QuotaReserved(t: Tables, account: Id, date: string, limit: int, ttlMinutes: int, token: Id)
    : (Tables, Result<Option<Id>>)
  {
    match QuotaScope(t.dir, account)
    case Err(e) => (t, Err(e))
    case Ok(scope) =>
      var key := QuotaKey(scope.user, scope.app, date);
      var rs := Pruned(t.reservations, scope.user, scope.app, t.dir.world.now);
      if limit > 0 && UsedFor(t.usage, key) + |Held(rs, key)| >= limit then (t.(reservations := rs), Ok(None))
      else if token in rs then (t, Err(DatabaseError))
      else (t.(reservations := rs[token := Reservation(key, account, t.dir.world.now + 60 * ttlMinutes)]), Ok(Some(token)))
  }

  function QuotaConfirmed(t: Tables, token: Option<Id>): (Tables, Result<()>) {
    if token.None? || token.value == "" || token.value !in t.reservations then (t, Ok(()))
    else
      var r := t.reservations[token.value];
      match QuotaScope(t.dir, r.account)
      case Err(e) => (t, Err(e))
      case Ok(scope) =>
        if scope != Scope(r.key.subject, r.key.app) then (t, Err(ScopeMismatch))
        else (t.(reservations := Drop(t.reservations, {token.value}), usage := Incremented(t.usage, r.key, r.account)), Ok(()))
  }

  function QuotaRolledBack(t: Tables, token: Option<Id>): Tables {
    if token.None? || token.value == "" then t else t.(reservations := Drop(t.reservations, {token.value}))
  }

  function UsageIncremented(t: Tables, account: Id, date: string): (Tables, Result<nat>) {
    match QuotaScope(t.dir, account)
    case Err(e) => (t, Err(e))
    case Ok(scope) =>
      var usage := Incremented(t.usage, QuotaKey(scope.user, scope.app, date), account);
      (t.(usage := usage), Ok(UsedFor(usage, QuotaKey(scope.user, scope.app, date))))
  }

  /** Expired rows, oldest first, at most `limit` of them. */
  ghost predicate OldestExpired(rs: map<Id, Reservation>, now: int, limit: nat, ids: set<Id>) {
    var expired := set x <- rs | rs[x].expiresAt <= now;
    && ids <= expired && |ids| == (if |expired| <= limit then |expired| else limit)
    && forall x <- ids, y <- expired :: y !in ids ==> rs[x].expiresAt <= rs[y].expiresAt
  }

  // ---- the calls ----

  method ReserveDailyQuota(conn: Connection, account: Id, date: string, limit: int, ttlMinutes: int, token: Id)
    returns (r: Result<Option<Id>>)
    modifies conn`reservations
    ensures (conn.Snapshot(), r) == QuotaReserved(old(conn.Snapshot()), account, date, limit, ttlMinutes, token)
  {
    var before := conn.reservations;
    var scope := QuotaScope(Directory(conn.accounts, conn.bindings, conn.world), account);
    if scope.Err? { return Err(scope.error); }
    var Scope(subject, app) := scope.value;
    var key := QuotaKey(subject, app, date);
    conn.reservations := Pruned(conn.reservations, subject, app, conn.world.now);
    if limit > 0 {
      var used := if key in conn.usage then conn.usage[key].count else 0;
      if used + |Held(conn.reservations, key)| >= limit { return Ok(None); }
    }
    if token in conn.reservations {
      conn.reservations := before;
      return Err(DatabaseError);
    }
    conn.reservations := conn.reservations[token := Reservation(key, account, conn.world.now + 60 * ttlMinutes)];
    return Ok(Some(token));
  }

  method ConfirmDailyQuota(conn: Connection, token: Option<Id>) returns (r: Result<()>)
    modifies conn`reservations, conn`usage
    ensures (conn.Snapshot(), r) == QuotaConfirmed(old(conn.Snapshot()), token)
  {
    if token.None? || token.value == "" { return Ok(()); }
    if token.value !in conn.reservations { return Ok(()); }
    var row := conn.reservations[token.value];
    var scope := QuotaScope(Directory(conn.accounts, conn.bindings, conn.world), row.account);
    if scope.Err? { return Err(scope.error); }
    if scope.value.user != row.key.subject || scope.value.app != row.key.app { return Err(ScopeMismatch); }
    conn.reservations := Drop(conn.reservations, {token.value});
    conn.usage := Incremented(conn.usage, row.key, row.account);
    return Ok(());
  }

  method RollbackDailyQuota(conn: Connection, token: Option<Id>)
    modifies conn`reservations
    ensures conn.Snapshot() == QuotaRolledBack(old(conn.Snapshot()), token)
  {
    if token.None? || token.value == "" { return; }
    conn.reservations := Drop(conn.reservations, {token.value});
  }

  method IncrementDailyUsage(conn: Connection, account: Id, date: string) returns (r: Result<nat>)
    modifies conn`usage
    ensures (conn.Snapshot(), r) == UsageIncremented(old(conn.Snapshot()), account, date)
  {
    var scope := QuotaScope(Directory(conn.accounts, conn.bindings, conn.world), account);
    if scope.Err? { return Err(scope.error); }
    var key := QuotaKey(scope.value.user, scope.value.app, date);
    conn.usage := Incremented(conn.usage, key, account);
    return Ok(conn.usage[key].count);
  }

  /** The SELECT .. ORDER BY expires_at LIMIT of the batch reclaim. */
  method SelectExpired(rs: map<Id, Reservation>, now: int, limit: nat) returns (ids: set<Id>)
    ensures OldestExpired(rs, now, limit, ids)
  {
    ids := {};
    ghost var expired := set x <- rs | rs[x].expiresAt <= now;
    var left := set x <- rs | rs[x].expiresAt <= now;
    while left != {} && |ids| < limit
      invariant ids !! left && ids + left == expired && |ids| <= limit
      invariant |ids| + |left| == |expired|
      invariant forall x <- ids, y <- left :: rs[x].expiresAt <= rs[y].expiresAt
      decreases left
    {
      var x := Earliest(rs, left);
      ids, left := ids + {x}, left - {x};
    }
    assert left == {} ==> ids == expired;
  }

  method Earliest(rs: map<Id, Reservation>, ids: set<Id>) returns (first: Id)
    requires ids != {} && ids <= rs.Keys
    ensures first in ids && forall y <- ids :: rs[first].expiresAt <= rs[y].expiresAt
  {
    first :| first in ids;
    var todo := ids - {first};
    while todo != {}
      invariant first in ids && todo <= ids
      invariant forall y <- ids :: y in todo || rs[first].expiresAt <= rs[y].expiresAt
      decreases todo
    {
      var x :| x in todo;
      if rs[x].expiresAt < rs[first].expiresAt { first := x; }
      todo := todo - {x};
    }
  }

  method ReclaimExpiredReservations(conn: Connection, now: int, limit: nat) returns (count: nat, ghost ids: set<Id>)
    modifies conn`reservations
    ensures OldestExpired(old(conn.reservations), now, limit, ids) && count == |ids|
    ensures conn.Snapshot() == old(conn.Snapshot()).(reservations := Drop(old(conn.reservations), ids))
  {
    var found := SelectExpired(conn.reservations, now, limit);
    ids := found;
    if found != {} {
      conn.reservations := Drop(conn.reservations, found);
    }
    assert found == {} ==> Drop(conn.reservations, found) == conn.reservations;
    return |found|, found;
  }

  /** A reservation is refused exactly when confirmed uses and unexpired reservations of the same
      (subject, app, date) have reached a positive limit. */
  lemma RefusedExactlyWhenFull(t: Tables, account: Id, date: string, limit: int, ttlMinutes: int, token: Id)
    ensures QuotaReserved(t, account, date, limit, ttlMinutes, token).1 == Ok(None) <==>
            && QuotaScope(t.dir, account).Ok? && limit > 0
            && var key := QuotaKey(QuotaScope(t.dir, account).value.user, QuotaScope(t.dir, account).value.app, date);
               UsedFor(t.usage, key) + |HeldLive(t.reservations, key, t.dir.world.now)| >= limit
  {
    if QuotaScope(t.dir, account).Ok? {
      var Scope(user, app) := QuotaScope(t.dir, account).value;
      assert Held(Pruned(t.reservations, user, app, t.dir.world.now), QuotaKey(user, app, date))
          == HeldLive(t.reservations, QuotaKey(user, app, date), t.dir.world.now);
    }
  }
}
