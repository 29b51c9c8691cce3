/** Whose quota a call uses: all accounts of one user in a product share it, and nobody else does. */
module QuotaSharing {
  import opened Wrappers
  import opened Tables
  import opened Quota
  import opened QuotaRuns

  /** The account is of the product and owned by the subject; or nobody owns it and it is the subject. */
  predicate PaysAs(dir: Directory, account: Id, subject: Id, app: Id) {
    && account in dir.accounts && dir.accounts[account].app == app
    && match ResolveOwner(dir, account)
       case Some(user) => user == subject
       case None => account == subject
  }

  /** A call of the account is accepted: nobody owns it; or its owner is an active member of the product,
      and is bound to it there, or owns the universe it lives in, or owns its runtime there. */
  ghost predicate Accepted(dir: Directory, account: Id) {
    && account in dir.accounts
    && var app := dir.accounts[account].app;
       match ResolveOwner(dir, account)
       case None => true
       case Some(user) =>
         && (user, app) in dir.world.members
         && ((exists b <- dir.bindings :: b.account == account && b.user == user && b.app == app && b.active)
            || (account in dir.world.residents && dir.world.residents[account].owner == user)
            || (account in dir.world.runtimeOwners && dir.world.runtimeOwners[account].user == user
                && dir.world.runtimeOwners[account].app == app))
  }

  /** How many uses and unexpired reservations stand under a subject, product and date. */
  function UsedUp(t: Tables, subject: Id, app: Id, date: string): nat {
    var key := QuotaKey(subject, app, date);
    (if key in t.usage then t.usage[key].count else 0)
    + |set x <- t.reservations | t.reservations[x].key == key && t.reservations[x].expiresAt > t.dir.world.now|
  }

  lemma ScopeIs(dir: Directory, account: Id)
    ensures QuotaScope(dir, account).Ok? <==> Accepted(dir, account)
    ensures QuotaScope(dir, account).Ok? ==> PaysAs(dir, account, QuotaScope(dir, account).value.user, QuotaScope(dir, account).value.app)
  {
  }

  lemma PaysOnce(dir: Directory, account: Id, subject: Id, app: Id, subject': Id, app': Id)
    requires PaysAs(dir, account, subject, app) && PaysAs(dir, account, subject', app')
    ensures subject == subject' && app == app'
  {
  }

  lemma LiveIs(t: Tables, subject: Id, app: Id, date: string)
    ensures UsedUp(t, subject, app, date)
         == UsedFor(t.usage, QuotaKey(subject, app, date)) + |HeldLive(t.reservations, QuotaKey(subject, app, date), t.dir.world.now)|
  {
    assert HeldLive(t.reservations, QuotaKey(subject, app, date), t.dir.world.now)
        == set x <- t.reservations | t.reservations[x].key == QuotaKey(subject, app, date) && t.reservations[x].expiresAt > t.dir.world.now;
  }

  // ---- one call ----

  /** A reserve with an unused token is answered exactly when its account is accepted; it is refused
      exactly when what everyone paying as the same subject has used up reaches a positive limit; and
      otherwise its token is stored under that subject, product and date. */
  lemma ReserveAnswers(t: Tables, account: Id, date: string, limit: int, ttlMinutes: int, token: Id, subject: Id, app: Id)
    requires token !in t.reservations && (Accepted(t.dir, account) ==> PaysAs(t.dir, account, subject, app))
    ensures var (t', r) := QuotaReserved(t, account, date, limit, ttlMinutes, token);
            && (r.Ok? <==> Accepted(t.dir, account))
            && (r.Ok? ==>
                 && (r.value.None? <==> limit > 0 && UsedUp(t, subject, app, date) >= limit)
                 && (r.value.Some? ==>
                      && r.value.value == token && token in t'.reservations
                      && t'.reservations[token] == Reservation(QuotaKey(subject, app, date), account, t.dir.world.now + 60 * ttlMinutes))
                 && forall x :: x in t'.reservations && x != token <==>
                      x in t.reservations && x != token
                      && !(t.reservations[x].key.subject == subject && t.reservations[x].key.app == app
                           && t.reservations[x].expiresAt <= t.dir.world.now))
            && t'.usage == t.usage && (r.Err? ==> t' == t)
  {
    ScopeIs(t.dir, account);
    if QuotaScope(t.dir, account).Ok? {
      var scope := QuotaScope(t.dir, account).value;
      PaysOnce(t.dir, account, subject, app, scope.user, scope.app);
      RefusedExactlyWhenFull(t, account, date, limit, ttlMinutes, token);
      LiveIs(t, subject, app, date);
    }
  }

  /** Two accounts of one owner in a product share the quota: what one has just reserved counts, as one
      more, against the other. */
  lemma SharedByOwner(t: Tables, a: Id, b: Id, user: Id, app: Id, date: string, limit: int, ttlMinutes: int, x: Id,
                      limit': int, ttlMinutes': int, y: Id)
    requires ResolveOwner(t.dir, a) == ResolveOwner(t.dir, b) == Some(user)
    requires a in t.dir.accounts && b in t.dir.accounts && t.dir.accounts[a].app == t.dir.accounts[b].app == app
    requires x !in t.reservations && y !in t.reservations && x != y && ttlMinutes > 0
    requires QuotaReserved(t, a, date, limit, ttlMinutes, x).1 == Ok(Some(x)) && Accepted(t.dir, b)
    ensures var t' := QuotaReserved(t, a, date, limit, ttlMinutes, x).0;
            && UsedUp(t', user, app, date) == UsedUp(t, user, app, date) + 1
            && (QuotaReserved(t', b, date, limit', ttlMinutes', y).1 == Ok(None) <==>
                 limit' > 0 && UsedUp(t, user, app, date) + 1 >= limit')
  {
    var t' := QuotaReserved(t, a, date, limit, ttlMinutes, x).0;
    ScopeIs(t.dir, a);
    ReserveAnswers(t, a, date, limit, ttlMinutes, x, user, app);
    OneMoreUsed(t, t', x, user, app, date);
    assert t'.dir == t.dir;
    ReserveAnswers(t', b, date, limit', ttlMinutes', y, user, app);
  }

  lemma OneMoreUsed(t: Tables, t': Tables, x: Id, subject: Id, app: Id, date: string)
    requires t'.usage == t.usage && t'.dir == t.dir && x !in t.reservations && x in t'.reservations
    requires t'.reservations[x].key == QuotaKey(subject, app, date) && t'.reservations[x].expiresAt > t.dir.world.now
    requires forall z <- t'.reservations :: z != x ==> z in t.reservations && t'.reservations[z] == t.reservations[z]
    requires forall z <- t.reservations :: t.reservations[z].expiresAt > t.dir.world.now ==> z in t'.reservations
    ensures UsedUp(t', subject, app, date) == UsedUp(t, subject, app, date) + 1
  {
    var (key, now) := (QuotaKey(subject, app, date), t.dir.world.now);
    var live := set z <- t.reservations | t.reservations[z].key == key && t.reservations[z].expiresAt > now;
    var live' := set z <- t'.reservations | t'.reservations[z].key == key && t'.reservations[z].expiresAt > now;
    assert live' == live + {x};
  }

  /** Accounts that pay as different subjects, or in different products, never notice each other: an
      ownerless account in particular counts only against itself. */
  lemma KeptApart(t: Tables, a: Id, b: Id, subject: Id, app: Id, date: string, limit: int, ttlMinutes: int, x: Id,
                  subject': Id, app': Id, date': string, limit': int, ttlMinutes': int, y: Id)
    requires PaysAs(t.dir, a, subject, app) && PaysAs(t.dir, b, subject', app') && (subject != subject' || app != app')
    requires x !in t.reservations && y !in t.reservations && x != y
    ensures QuotaReserved(QuotaReserved(t, a, date, limit, ttlMinutes, x).0, b, date', limit', ttlMinutes', y).1
         == QuotaReserved(t, b, date', limit', ttlMinutes', y).1
  {
    var t' := QuotaReserved(t, a, date, limit, ttlMinutes, x).0;
    ReserveLeaves(t, a, date, limit, ttlMinutes, x, subject, app, subject', app', date', y);
    ReserveAnswers(t, b, date', limit', ttlMinutes', y, subject', app');
    ReserveAnswers(t', b, date', limit', ttlMinutes', y, subject', app');
    ErrorIsScope(t, b, date', limit', ttlMinutes', y);
    ErrorIsScope(t', b, date', limit', ttlMinutes', y);
  }

  lemma ReserveLeaves(t: Tables, a: Id, date: string, limit: int, ttlMinutes: int, x: Id, subject: Id, app: Id,
                      subject': Id, app': Id, date': string, y: Id)
    requires PaysAs(t.dir, a, subject, app) && (subject != subject' || app != app')
    requires x !in t.reservations && y !in t.reservations && x != y
    ensures var t' := QuotaReserved(t, a, date, limit, ttlMinutes, x).0;
            t'.dir == t.dir && y !in t'.reservations && UsedUp(t', subject', app', date') == UsedUp(t, subject', app', date')
  {
    var t' := QuotaReserved(t, a, date, limit, ttlMinutes, x).0;
    ScopeIs(t.dir, a);
    if QuotaScope(t.dir, a).Ok? {
      var scope := QuotaScope(t.dir, a).value;
      PaysOnce(t.dir, a, subject, app, scope.user, scope.app);
    }
    SameUsed(t, t', subject', app', date');
  }

  lemma ErrorIsScope(t: Tables, account: Id, date: string, limit: int, ttlMinutes: int, token: Id)
    requires token !in t.reservations
    ensures var r := QuotaReserved(t, account, date, limit, ttlMinutes, token).1;
            r.Err? ==> QuotaScope(t.dir, account).Err? && r.error == QuotaScope(t.dir, account).error
  {
  }

  lemma SameUsed(t: Tables, t': Tables, subject: Id, app: Id, date: string)
    requires t'.usage == t.usage && t'.dir == t.dir
    requires forall z <- t'.reservations :: t'.reservations[z].key == QuotaKey(subject, app, date) ==>
               z in t.reservations && t'.reservations[z] == t.reservations[z]
    requires forall z <- t.reservations :: t.reservations[z].key == QuotaKey(subject, app, date) ==>
               z in t'.reservations && t'.reservations[z] == t.reservations[z]
    ensures UsedUp(t', subject, app, date) == UsedUp(t, subject, app, date)
  {
    var (key, now) := (QuotaKey(subject, app, date), t.dir.world.now);
    assert (set z <- t.reservations | t.reservations[z].key == key && t.reservations[z].expiresAt > now)
        == (set z <- t'.reservations | t'.reservations[z].key == key && t'.reservations[z].expiresAt > now);
  }

  /** Confirming a stored token whose account still pays as its subject takes it away and adds one use
      under its own subject, product and date, and touches no other count or token. */
  lemma ConfirmAdds(t: Tables, token: Id)
    requires token != "" && token in t.reservations
    ensures var (t', r, row) := (QuotaConfirmed(t, Some(token)).0, QuotaConfirmed(t, Some(token)).1, t.reservations[token]);
            && (r.Ok? <==> Accepted(t.dir, row.account) && PaysAs(t.dir, row.account, row.key.subject, row.key.app))
            && (r.Ok? ==>
                 && t'.reservations == t.reservations - {token}
                 && t'.usage.Keys == t.usage.Keys + {row.key}
                 && (forall k <- t'.usage :: t'.usage[k].count
                      == (if k in t.usage then t.usage[k].count else 0) + if k == row.key then 1 else 0))
            && (r.Err? ==> t' == t)
  {
    var row := t.reservations[token];
    ScopeIs(t.dir, row.account);
    if QuotaScope(t.dir, row.account).Ok? && PaysAs(t.dir, row.account, row.key.subject, row.key.app) {
      var scope := QuotaScope(t.dir, row.account).value;
      PaysOnce(t.dir, row.account, row.key.subject, row.key.app, scope.user, scope.app);
    }
  }

  /** A direct increment adds one use under the subject the account pays as. */
  lemma IncrementAdds(t: Tables, account: Id, date: string, subject: Id, app: Id)
    requires Accepted(t.dir, account) ==> PaysAs(t.dir, account, subject, app)
    ensures var (t', r) := UsageIncremented(t, account, date);
            var key := QuotaKey(subject, app, date);
            && (r.Ok? <==> Accepted(t.dir, account))
            && (r.Ok? ==>
                 && t'.usage.Keys == t.usage.Keys + {key} && r.value == t'.usage[key].count
                 && (forall k <- t'.usage :: t'.usage[k].count
                      == (if k in t.usage then t.usage[k].count else 0) + if k == key then 1 else 0))
            && t'.reservations == t.reservations && (r.Err? ==> t' == t)
  {
    ScopeIs(t.dir, account);
    if QuotaScope(t.dir, account).Ok? {
      PaysOnce(t.dir, account, subject, app, QuotaScope(t.dir, account).value.user, QuotaScope(t.dir, account).value.app);
    }
  }

  /** Rolling back takes the token away, if it is stored, and counts nothing; no token is nobody's. */
  lemma RollbackTakes(t: Tables, token: Option<Id>)
    ensures QuotaRolledBack(t, token)
         == match token
            case None => t
            case Some(x) => if x == "" then t else t.(reservations := t.reservations - {x})
    ensures token == None || token == Some("") ==> QuotaConfirmed(t, token) == (t, Ok(()))
    ensures token.Some? && token.value !in t.reservations ==> QuotaConfirmed(t, token) == (t, Ok(()))
  {
  }

  /** A reclaim never takes an unexpired token; it takes every expired one when the limit allows, and
      otherwise as many as the limit, none of which expired after one it leaves. */
  lemma ReclaimTakes(rs: map<Id, Reservation>, now: int, limit: nat, ids: set<Id>)
    requires OldestExpired(rs, now, limit, ids)
    ensures var after := Drop(rs, ids);
            && (forall x <- rs :: rs[x].expiresAt > now ==> x in after && after[x] == rs[x])
            && (|set x <- rs | rs[x].expiresAt <= now| <= limit ==> forall x <- after :: after[x].expiresAt > now)
            && (|set x <- rs | rs[x].expiresAt <= now| > limit ==> |rs| - |after| == limit)
            && forall x <- rs, y <- after :: x !in after && after[y].expiresAt <= now ==> rs[x].expiresAt <= rs[y].expiresAt
  {
    var (after, expired) := (Drop(rs, ids), set x <- rs | rs[x].expiresAt <= now);
    assert after.Keys == rs.Keys - ids;
    if |expired| <= limit {
      SameSize(ids, expired);
    }
  }

  lemma SameSize(a: set<Id>, b: set<Id>)
    requires a <= b && |a| == |b|
    ensures a == b
  {
    assert b == a + (b - a);
  }

  // ---- over a run ----

  /** Every reserve made by an account paying as the subject, for the date, asks for a limit in 1..cap;
      and none of them counts a use directly. */
  ghost predicate LimitedFor(h: History, a: Act, subject: Id, app: Id, date: string, cap: nat) {
    match a
    case Reserve(account, day, limit, _, _) => PaysAs(h.t.dir, account, subject, app) && day == date ==> 1 <= limit <= cap
    case Increment(account, day) => !(PaysAs(h.t.dir, account, subject, app) && day == date)
    case _ => true
  }

  ghost predicate RunLimitedFor(h: History, run: seq<Act>, subject: Id, app: Id, date: string, cap: nat) {
    run != [] ==>
      && RunLimitedFor(h, run[..|run| - 1], subject, app, date, cap)
      && LimitedFor(Run(h, run[..|run| - 1]), run[|run| - 1], subject, app, date, cap)
  }

  lemma {:induction false} LimitedIsWithin(h: History, run: seq<Act>, subject: Id, app: Id, date: string, cap: nat)
    requires RunLimitedFor(h, run, subject, app, date, cap)
    ensures RunWithin(h, run, QuotaKey(subject, app, date), cap)
  {
    if run != [] {
      LimitedIsWithin(h, run[..|run| - 1], subject, app, date, cap);
      var (mid, a) := (Run(h, run[..|run| - 1]), run[|run| - 1]);
      if a.Reserve? || a.Increment? {
        ScopeIs(mid.t.dir, a.account);
      }
    }
  }

  /** The tokens the run issued, for the date, through accounts that paid as the subject at the time. */
  ghost function Made(h: History, run: seq<Act>, subject: Id, app: Id, date: string): set<Id> {
    if run == [] then {}
    else
      var (mid, a) := (Run(h, run[..|run| - 1]), run[|run| - 1]);
      Made(h, run[..|run| - 1], subject, app, date)
      + if a.Reserve? && a.date == date && PaysAs(mid.t.dir, a.account, subject, app)
           && QuotaReserved(mid.t, a.account, a.date, a.limit, a.ttlMinutes, a.token).1 == Ok(Some(a.token))
        then {a.token} else {}
  }

  lemma {:induction false} MadeUnderKey(t: Tables, run: seq<Act>, subject: Id, app: Id, date: string, x: Id)
    requires PossibleRun(Start(t), run) && x in Made(Start(t), run, subject, app, date)
    ensures x in Run(Start(t), run).issued && Run(Start(t), run).issued[x] == QuotaKey(subject, app, date)
  {
    var (pre, a) := (run[..|run| - 1], run[|run| - 1]);
    var mid := Run(Start(t), pre);
    if x in Made(Start(t), pre, subject, app, date) {
      MadeUnderKey(t, pre, subject, app, date, x);
      IssuedStays(mid, a, x);
    } else {
      IssuedAs(mid, a, subject, app);
    }
  }

  lemma IssuedStays(h: History, a: Act, x: Id)
    requires Possible(h, a) && x in h.issued
    ensures x in After(h, a).issued && After(h, a).issued[x] == h.issued[x]
  {
  }

  lemma IssuedAs(h: History, a: Act, subject: Id, app: Id)
    requires a.Reserve? && PaysAs(h.t.dir, a.account, subject, app)
    requires QuotaReserved(h.t, a.account, a.date, a.limit, a.ttlMinutes, a.token).1 == Ok(Some(a.token))
    ensures a.token in After(h, a).issued && After(h, a).issued[a.token] == QuotaKey(subject, app, a.date)
  {
    ScopeIs(h.t.dir, a.account);
    var scope := QuotaScope(h.t.dir, a.account).value;
    PaysOnce(h.t.dir, a.account, subject, app, scope.user, scope.app);
  }

  /** When every reserve through any account of the subject asks for a limit in 1..L, then over every run
      the tokens issued through all of them together that are stored or confirmed never exceed L. */
  lemma SharedCap(t: Tables, run: seq<Act>, subject: Id, app: Id, date: string, cap: nat)
    requires PossibleRun(Start(t), run) && RunLimitedFor(Start(t), run, subject, app, date, cap)
    requires Capped(t, QuotaKey(subject, app, date), cap)
    ensures var h := Run(Start(t), run);
            |set x <- Made(Start(t), run, subject, app, date) | x in h.t.reservations || x in h.confirmed| <= cap
  {
    var (h, key) := (Run(Start(t), run), QuotaKey(subject, app, date));
    LimitedIsWithin(Start(t), run, subject, app, date, cap);
    NeverOverTheCap(t, run, key, cap);
    QuotaRuns.RunKeeps(t, run);
    var taken := set x <- Made(Start(t), run, subject, app, date) | x in h.t.reservations || x in h.confirmed;
    forall x <- taken ensures x in Held(h.t.reservations, key) + ConfirmedFor(h, key) {
      MadeUnderKey(t, run, subject, app, date, x);
    }
    SubsetSize(taken, Held(h.t.reservations, key) + ConfirmedFor(h, key));
    assert |Held(h.t.reservations, key) + ConfirmedFor(h, key)| <= |Held(h.t.reservations, key)| + |ConfirmedFor(h, key)|;
    assert UsedFor(h.t.usage, key) == UsedFor(t.usage, key) + h.direct[key] + |ConfirmedFor(h, key)|;
  }
}
