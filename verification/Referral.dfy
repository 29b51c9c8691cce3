/** The referral state machine: registered, bound, qualified, rewarded, with the soft-review hold. */
module Referral {
  import opened Wrappers
  import opened Text
  import opened Ledger
  import opened Tables
  import opened Billing

  const QUALIFYING_MESSAGES := 3
  const REWARD_MICROS := 1000 * 1_000_000
  const DAY := 86400
  const HOLD := 3 * DAY
  const WINDOW := 7 * DAY
  const SOFT_REVIEW_LIMIT := 5

  /** The wallet and ledger ids `_new_id` would draw while a relationship's reward is posted. */
  type NewIds = Id -> (Id, Id)

  // ---- queries ----

  predicate Between(r: Relationship, invitee: Id, app: Id) {
    r.invitee == invitee && r.app == app
  }

  ghost predicate OneReferralEach(referrals: map<Id, Relationship>) {
    forall x <- referrals, y <- referrals ::
      Between(referrals[x], referrals[y].invitee, referrals[y].app) ==> x == y
  }

  /** The relationship of an invitee in an app; the unique index leaves at most one. */
  ghost function FindReferral(referrals: map<Id, Relationship>, invitee: Id, app: Id): (r: Option<Id>)
    ensures r.Some? ==> r.value in referrals && Between(referrals[r.value], invitee, app)
    ensures r.None? ==> forall x <- referrals :: !Between(referrals[x], invitee, app)
  {
    if exists x <- referrals :: Between(referrals[x], invitee, app)
    then var x :| x in referrals && Between(referrals[x], invitee, app); Some(x)
    else None
  }

  method SelectReferral(conn: Connection, invitee: Id, app: Id) returns (r: Option<Id>)
    requires OneReferralEach(conn.referrals)
    ensures r == FindReferral(conn.referrals, invitee, app)
  {
    var found := set x <- conn.referrals | Between(conn.referrals[x], invitee, app);
    assert forall x <- conn.referrals :: x in found <==> Between(conn.referrals[x], invitee, app);
    if found == {} { return None; }
    var x :| x in found;
    assert FindReferral(conn.referrals, invitee, app).Some?;
    return Some(x);
  }

  /** The earliest active binding of a user to an active account of the app. */
  function FirstRewardable(accounts: map<Id, Account>, bindings: seq<Binding>, user: Id, app: Id): (r: Option<Id>)
    ensures r.Some? ==> r.value in accounts && accounts[r.value].app == app
  {
    if bindings == [] then None
    else
      var b := bindings[0];
      if b.user == user && b.active && b.app == app && b.account in accounts
         && accounts[b.account].app == app && accounts[b.account].active
      then Some(b.account)
      else FirstRewardable(accounts, bindings[1..], user, app)
  }

  /** The owner a message is attributed to: the earliest active binding of the account in its app. */
  function FirstMessageOwner(accounts: map<Id, Account>, bindings: seq<Binding>, account: Id): (r: Option<Id>)
    ensures r.Some? ==> account in accounts
  {
    if bindings == [] then None
    else
      var b := bindings[0];
      if b.account == account && b.active && account in accounts && b.app == accounts[account].app then Some(b.user)
      else FirstMessageOwner(accounts, bindings[1..], account)
  }

  function OrElse<T>(a: Option<T>, b: T): Option<T> {
    if a.Some? then a else Some(b)
  }

  function Put(t: Tables, id: Id, r: Relationship): Tables {
    t.(referrals := t.referrals[id := r])
  }

  // ---- specifications ----

  function Recent(referrals: map<Id, Relationship>, inviter: Id, app: Id, since: int): set<Id> {
    set x <- referrals | referrals[x].inviter == inviter && referrals[x].app == app
                         && !referrals[x].status.PendingRegistration? && !referrals[x].review.Failed?
                         && referrals[x].createdAt >= since
  }

  function NewReferral(inviter: Id, invitee: Id, app: Id, now: int): Relationship {
    Relationship(inviter, invitee, app, Registered, Pending, 0, [], false, None, None, None, false, None, None, now)
  }

  /** The referral half of `register_platform_user_with_referral`, once the code is known usable. */
  function RegisteredReferral(t: Tables, id: Id, inviter: Id, invitee: Id, app: Id): Result<Tables> {
    if inviter == invitee then Err(OwnerMismatch)
    else if id in t.referrals || exists x <- t.referrals :: Between(t.referrals[x], invitee, app) then Err(DatabaseError)
    else
      var r := NewReferral(inviter, invitee, app, t.dir.world.now);
      var added := t.referrals[id := r];
      Ok(Put(t, id, r.(softReview := |Recent(added, inviter, app, t.dir.world.now - WINDOW)| > SOFT_REVIEW_LIMIT)))
  }

  /** `_mark_referral_relationship_bound_in_conn`. */
  ghost function MarkedBound(t: Tables, invitee: Id, account: Id): (Tables, Option<Id>) {
    if account !in t.dir.accounts then (t, None)
    else
      var app := t.dir.accounts[account].app;
      if (invitee, app) !in t.dir.world.members then (t, None)
      else match FindReferral(t.referrals, invitee, app)
        case None => (t, None)
        case Some(id) =>
          var r := t.referrals[id];
          if r.status == PendingRegistration || r.status == Registered
          then (Put(t, id, r.(status := Bound, boundAccount := OrElse(r.boundAccount, account))), Some(id))
          else (t, Some(id))
  }

  function RewardRequest(r: Relationship, id: Id, account: Id, newIds: NewIds): Request {
    Request(account, r.inviter, REWARD_MICROS, Credit, ReferralReward, Some(id), RewardOf(id), newIds(id).0, newIds(id).1)
  }

  /** `_apply_referral_reward_in_conn`: the only place a reward is paid. */
  ghost function RewardApplied(t: Tables, id: Id, newIds: NewIds): (Tables, Result<Option<LedgerRow>>) {
    if id !in t.referrals || t.referrals[id].rewardId.Some? then (t, Ok(None))
    else
      var r := t.referrals[id];
      match FirstRewardable(t.dir.accounts, t.dir.bindings, r.inviter, r.app)
      case None => (Put(t, id, r.(status := Qualified, review := Passed, blocked := true)), Ok(None))
      case Some(account) =>
        match Applied(t, RewardRequest(r, id, account, newIds))
        case Err(e) => (t, Err(e))
        case Ok(posted) =>
          (Put(t.(book := posted.book), id,
               r.(status := Rewarded, review := Passed, rewardId := Some(posted.row.id),
                  rewardedAt := OrElse(r.rewardedAt, t.dir.world.now))),
           Ok(Some(posted.row)))
  }

  /** `_ensure_referral_soft_review_hold_in_conn`: the release time is set once, at first qualification. */
  function Held(t: Tables, id: Id): Tables
    requires id in t.referrals
  {
    var r := t.referrals[id];
    if r.review != Pending then t
    else
      Put(t, id, HeldRow(r, t.dir.world.now))
        .(reviews := if id in t.reviews then t.reviews else t.reviews[id := Pending])
  }

  predicate HoldElapsed(r: Relationship, now: int) {
    && r.rewardId.None? && r.status == Qualified && r.review == Pending && r.softReview
    && r.releaseAfter.Some? && r.releaseAfter.value <= now
  }

  function ReviewPassed(t: Tables, id: Id): map<Id, Review>
    requires id in t.referrals
  {
    var r := t.referrals[id];
    if id in t.reviews || r.boundAccount.Some?
       || FirstRewardable(t.dir.accounts, t.dir.bindings, r.invitee, r.app).Some?
    then t.reviews[id := Passed] else t.reviews
  }

  /** `_release_delayed_referral_reward_in_conn`. When posting fails, the review stays passed: only a
      caller that lets the error through rolls it back. */
  ghost function DelayedReleased(t: Tables, id: Id, newIds: NewIds): (Tables, Result<Option<LedgerRow>>) {
    if id !in t.referrals || !HoldElapsed(t.referrals[id], t.dir.world.now) then (t, Ok(None))
    else RewardApplied(Put(t, id, t.referrals[id].(review := Passed)).(reviews := ReviewPassed(t, id)), id, newIds)
  }

  function CountedRow(r: Relationship, message: int): Relationship {
    var candidates := r.candidates + [message];
    r.(candidates := candidates, count := |candidates|,
       status := if |candidates| >= QUALIFYING_MESSAGES then Qualified else Bound)
  }

  function HeldRow(r: Relationship, now: int): Relationship {
    r.(status := Qualified, qualifiedAt := OrElse(r.qualifiedAt, now), releaseAfter := OrElse(r.releaseAfter, now + HOLD))
  }

  /** Count one inbound message; the third distinct meaningful one qualifies the relationship. */
  function Counted(t: Tables, id: Id, account: Id, message: int): Tables
    requires id in t.referrals
  {
    var r := t.referrals[id];
    var messages := t.dir.world.messages;
    if && message in messages && messages[message].account == account
       && messages[message].inbound && messages[message].fromUser && messages[message].meaningful
       && (r.status == Bound || r.status == Qualified) && message !in r.candidates
    then
      Put(t, id, CountedRow(r, message))
    else t
  }

  /** What happens once enough messages are counted. */
  ghost function Concluded(t: Tables, id: Id, newIds: NewIds): (Tables, Result<Option<LedgerRow>>)
    requires id in t.referrals
  {
    var r := t.referrals[id];
    if r.softReview then
      match r.review
      case Passed => RewardApplied(t, id, newIds)
      case Pending => DelayedReleased(Held(t, id), id, newIds)
      case Failed => (t, Ok(None))
    else
      var t' := if id in t.reviews then t else t.(reviews := t.reviews[id := Passed]);
      if t'.reviews[id] != Passed then (t', Ok(None))
      else RewardApplied(Put(t', id, r.(status := Qualified, review := Passed)), id, newIds)
  }

  /** `process_referral_message_for_account`, as one transaction: an error undoes all of it. */
  ghost function Processed(t: Tables, account: Id, message: int, newIds: NewIds): (Tables, Result<Option<LedgerRow>>) {
    match FirstMessageOwner(t.dir.accounts, t.dir.bindings, account)
    case None => (t, Ok(None))
    case Some(invitee) =>
      if t.dir.accounts[account].app !in t.dir.world.enabled then (t, Err(AppNotEnabled))
      else
        var (bound, found) := MarkedBound(t, invitee, account);
        if found.None? || bound.referrals[found.value].rewardId.Some? then (bound, Ok(None))
        else
          var counted := Counted(bound, found.value, account, message);
          if counted.referrals[found.value].count < QUALIFYING_MESSAGES then (counted, Ok(None))
          else
            var (t', r) := Concluded(counted, found.value, newIds);
            if r.Err? then (t, r) else (t', r)
  }

  // ---- batches ----

  /** A batch goes on past Python errors; after a database error nothing it did can commit. */
  datatype Batch = Batch(t: Tables, paid: seq<LedgerRow>, aborted: bool)

  function Continued(b: Batch, step: (Tables, Result<Option<LedgerRow>>)): Batch {
    match step.1
    case Err(e) => Batch(step.0, b.paid, e == DatabaseError)
    case Ok(None) => Batch(step.0, b.paid, false)
    case Ok(Some(row)) => Batch(step.0, b.paid + [row], false)
  }

  ghost function ReleasedAll(t: Tables, ids: seq<Id>, newIds: NewIds): Batch {
    if ids == [] then Batch(t, [], false)
    else
      var b := ReleasedAll(t, ids[..|ids| - 1], newIds);
      if b.aborted then b else Continued(b, DelayedReleased(b.t, ids[|ids| - 1], newIds))
  }

  predicate DueFor(r: Relationship, inviter: Option<Id>, app: Id, review: Review) {
    && (inviter.Some? ==> r.inviter == inviter.value) && r.app == app
    && r.status == Qualified && r.review == review && r.rewardId.None?
  }

  /** The ids a batch SELECT returns, in the order its ORDER BY puts them. */
  function Select(referrals: map<Id, Relationship>, order: seq<Id>, inviter: Option<Id>, app: Id, review: Review): seq<Id> {
    if order == [] then []
    else
      var x := order[|order| - 1];
      Select(referrals, order[..|order| - 1], inviter, app, review)
      + if x in referrals && DueFor(referrals[x], inviter, app, review) then [x] else []
  }

  function Clamp(limit: int, most: nat): nat {
    if limit < 1 then 1 else if limit > most then most else limit
  }

  function Limited(ids: seq<Id>, limit: nat): seq<Id> {
    if |ids| <= limit then ids else ids[..limit]
  }

  /** `release_due_referral_rewards` and its per-inviter form. */
  ghost function DueReleased(t: Tables, order: seq<Id>, inviter: Option<Id>, app: Id, limit: nat, newIds: NewIds)
    : (Tables, seq<LedgerRow>)
  {
    var b := ReleasedAll(t, Limited(Select(t.referrals, order, inviter, app, Pending), limit), newIds);
    if b.aborted then (t, b.paid) else (b.t, b.paid)
  }

  ghost function RewardedAll(t: Tables, ids: seq<Id>, newIds: NewIds): (Tables, Result<seq<LedgerRow>>) {
    if ids == [] then (t, Ok([]))
    else
      var (mid, paid) := RewardedAll(t, ids[..|ids| - 1], newIds);
      if paid.Err? then (mid, paid)
      else
        var (t', r) := RewardApplied(mid, ids[|ids| - 1], newIds);
        match r
        case Err(e) => (t', Err(e))
        case Ok(None) => (t', paid)
        case Ok(Some(row)) => (t', Ok(paid.value + [row]))
  }

  /** `retry_qualified_referral_rewards_for_user`: release what is due, then pay what is passed. */
  ghost function Retried(t: Tables, order: seq<Id>, inviter: Id, app: Id, newIds: NewIds): (Tables, Result<seq<LedgerRow>>) {
    var b := ReleasedAll(t, Limited(Select(t.referrals, order, Some(inviter), app, Pending), 100), newIds);
    if b.aborted then (t, Err(DatabaseError))
    else
      var (t', r) := RewardedAll(b.t, Select(b.t.referrals, order, Some(inviter), app, Passed), newIds);
      if r.Err? then (t, r) else (t', Ok(b.paid + r.value))
  }

  // ---- the calls ----

  /** The relationship row and its soft-review mark, written by two statements. */
  method RegisterReferral(conn: Connection, id: Id, inviter: Id, invitee: Id, app: Id) returns (r: Result<bool>)
    modifies conn`referrals
    ensures match RegisteredReferral(old(conn.Snapshot()), id, inviter, invitee, app)
            case Err(e) => r == Err(e) && conn.Snapshot() == old(conn.Snapshot())
            case Ok(t) => conn.Snapshot() == t && id in t.referrals && r == Ok(t.referrals[id].softReview)
  {
    if inviter == invitee { return Err(OwnerMismatch); }
    if id in conn.referrals || exists x <- conn.referrals :: Between(conn.referrals[x], invitee, app) {
      return Err(DatabaseError);
    }
    var now := conn.world.now;
    conn.referrals := conn.referrals[id := NewReferral(inviter, invitee, app, now)];
    var recent := Recent(conn.referrals, inviter, app, now - WINDOW);
    if |recent| > SOFT_REVIEW_LIMIT {
      conn.referrals := conn.referrals[id := conn.referrals[id].(softReview := true)];
    }
    return Ok(conn.referrals[id].softReview);
  }

  method MarkReferralRelationshipBoundInConn(conn: Connection, invitee: Id, account: Id) returns (r: Option<Id>)
    requires OneReferralEach(conn.referrals)
    modifies conn`referrals
    ensures (conn.Snapshot(), r) == MarkedBound(old(conn.Snapshot()), invitee, account)
  {
    if account !in conn.accounts { return None; }
    var app := conn.accounts[account].app;
    if (invitee, app) !in conn.world.members { return None; }
    r := SelectReferral(conn, invitee, app);
    if r.Some? {
      var row := conn.referrals[r.value];
      if row.status == PendingRegistration || row.status == Registered {
        conn.referrals := conn.referrals[r.value :=
          row.(status := Bound, boundAccount := if row.boundAccount.None? then Some(account) else row.boundAccount)];
      }
    }
  }

  method ApplyReferralRewardInConn(conn: Connection, id: Id, newIds: NewIds) returns (r: Result<Option<LedgerRow>>)
    requires UniqueWallets(conn.wallets)
    modifies conn`referrals, conn`wallets, conn`ledger
    ensures (conn.Snapshot(), r) == RewardApplied(old(conn.Snapshot()), id, newIds)
  {
    if id !in conn.referrals || conn.referrals[id].rewardId.Some? { return Ok(None); }
    var row := conn.referrals[id];
    var account := FirstRewardable(conn.accounts, conn.bindings, row.inviter, row.app);
    if account.None? {
      conn.referrals := conn.referrals[id := row.(status := Qualified, review := Passed, blocked := true)];
      return Ok(None);
    }
    var posted := ApplyWalletLedgerInConn(conn, RewardRequest(row, id, account.value, newIds));
    if posted.Err? { return Err(posted.error); }
    var rewardedAt := if row.rewardedAt.None? then Some(conn.world.now) else row.rewardedAt;
    conn.referrals := conn.referrals[id :=
      row.(status := Rewarded, review := Passed, rewardId := Some(posted.value.id), rewardedAt := rewardedAt)];
    return Ok(Some(posted.value));
  }

  method EnsureSoftReviewHoldInConn(conn: Connection, id: Id)
    requires id in conn.referrals
    modifies conn`referrals, conn`reviews
    ensures conn.Snapshot() == Held(old(conn.Snapshot()), id)
  {
    var row := conn.referrals[id];
    if row.review != Pending { return; }
    var now := conn.world.now;
    var qualifiedAt := if row.qualifiedAt.None? then Some(now) else row.qualifiedAt;
    var releaseAfter := if row.releaseAfter.None? then Some(now + HOLD) else row.releaseAfter;
    conn.referrals := conn.referrals[id :=
      row.(status := Qualified, review := Pending, qualifiedAt := qualifiedAt, releaseAfter := releaseAfter)];
    if id !in conn.reviews {
      conn.reviews := conn.reviews[id := Pending];
    }
  }

  method ReleaseDelayedReferralRewardInConn(conn: Connection, id: Id, newIds: NewIds) returns (r: Result<Option<LedgerRow>>)
    requires UniqueWallets(conn.wallets)
    modifies conn`referrals, conn`reviews, conn`wallets, conn`ledger
    ensures (conn.Snapshot(), r) == DelayedReleased(old(conn.Snapshot()), id, newIds)
  {
    if id !in conn.referrals { return Ok(None); }
    var row := conn.referrals[id];
    if row.rewardId.Some? || row.status != Qualified || row.review != Pending { return Ok(None); }
    if !row.softReview || row.releaseAfter.None? || row.releaseAfter.value > conn.world.now { return Ok(None); }
    conn.referrals := conn.referrals[id := row.(review := Passed)];
    var account := row.boundAccount;
    if account.None? {
      account := FirstRewardable(conn.accounts, conn.bindings, row.invitee, row.app);
    }
    if id in conn.reviews || account.Some? {
      conn.reviews := conn.reviews[id := Passed];
    }
    r := ApplyReferralRewardInConn(conn, id, newIds);
  }

  /** The counting step of a message, with its read-modify-write of the candidate list. */
  method CountMessageInConn(conn: Connection, id: Id, account: Id, message: int)
    requires id in conn.referrals
    modifies conn`referrals
    ensures conn.Snapshot() == Counted(old(conn.Snapshot()), id, account, message)
  {
    var row := conn.referrals[id];
    var messages := conn.world.messages;
    if message in messages && messages[message].account == account && messages[message].inbound
       && messages[message].fromUser
    {
      if (row.status == Bound || row.status == Qualified) && message !in row.candidates && messages[message].meaningful {
        var candidates := row.candidates + [message];
        var status := if |candidates| >= QUALIFYING_MESSAGES then Qualified else Bound;
        conn.referrals := conn.referrals[id := row.(count := |candidates|, status := status, candidates := candidates)];
      }
    }
  }

  /** The branch of a message call taken once enough messages are counted. */
  method ConcludeInConn(conn: Connection, id: Id, newIds: NewIds) returns (r: Result<Option<LedgerRow>>)
    requires UniqueWallets(conn.wallets) && id in conn.referrals
    modifies conn`referrals, conn`reviews, conn`wallets, conn`ledger
    ensures (conn.Snapshot(), r) == Concluded(old(conn.Snapshot()), id, newIds)
  {
    var row := conn.referrals[id];
    if row.softReview {
      if row.review == Passed {
        r := ApplyReferralRewardInConn(conn, id, newIds);
      } else if row.review == Pending {
        EnsureSoftReviewHoldInConn(conn, id);
        r := ReleaseDelayedReferralRewardInConn(conn, id, newIds);
      } else {
        r := Ok(None);
      }
    } else {
      if id !in conn.reviews {
        conn.reviews := conn.reviews[id := Passed];
      }
      if conn.reviews[id] != Passed { return Ok(None); }
      conn.referrals := conn.referrals[id := row.(status := Qualified, review := Passed)];
      r := ApplyReferralRewardInConn(conn, id, newIds);
    }
  }

  method ProcessReferralMessageForAccount(conn: Connection, account: Id, message: int, newIds: NewIds)
    returns (r: Result<Option<LedgerRow>>)
    requires UniqueWallets(conn.wallets) && OneReferralEach(conn.referrals)
    modifies conn
    ensures (conn.Snapshot(), r) == Processed(old(conn.Snapshot()), account, message, newIds)
  {
    var start := conn.Snapshot();
    var owner := FirstMessageOwner(conn.accounts, conn.bindings, account);
    if owner.None? { return Ok(None); }
    if conn.accounts[account].app !in conn.world.enabled { return Err(AppNotEnabled); }
    var found := MarkReferralRelationshipBoundInConn(conn, owner.value, account);
    if found.None? { return Ok(None); }
    var id := found.value;
    if conn.referrals[id].rewardId.Some? { return Ok(None); }
    CountMessageInConn(conn, id, account, message);
    if conn.referrals[id].count < QUALIFYING_MESSAGES { return Ok(None); }
    r := ConcludeInConn(conn, id, newIds);
    if r.Err? {
      conn.Rollback(start);
    }
  }

  method SelectDue(conn: Connection, order: seq<Id>, inviter: Option<Id>, app: Id, review: Review) returns (ids: seq<Id>)
    ensures ids == Select(conn.referrals, order, inviter, app, review)
  {
    ids := [];
    for i := 0 to |order|
      invariant ids == Select(conn.referrals, order[..i], inviter, app, review)
    {
      assert order[..i + 1][..i] == order[..i];
      if order[i] in conn.referrals && DueFor(conn.referrals[order[i]], inviter, app, review) {
        ids := ids + [order[i]];
      }
    }
    assert order[..|order|] == order;
  }

  /** The loop of `_release_due_delayed_referral_rewards_for_inviter_in_conn`: exceptions are logged
      and swallowed, so a failed posting leaves its review passed. */
  method ReleaseAllInConn(conn: Connection, ids: seq<Id>, newIds: NewIds) returns (paid: seq<LedgerRow>, aborted: bool)
    requires Indexed(conn.Snapshot().book)
    modifies conn
    ensures Batch(conn.Snapshot(), paid, aborted) == ReleasedAll(old(conn.Snapshot()), ids, newIds)
  {
    paid, aborted := [], false;
    var i := 0;
    while i < |ids| && !aborted
      invariant 0 <= i <= |ids|
      invariant UniqueWallets(conn.wallets)
      invariant Batch(conn.Snapshot(), paid, aborted) == ReleasedAll(old(conn.Snapshot()), ids[..i], newIds)
      decreases |ids| - i, !aborted
    {
      assert ids[..i + 1][..i] == ids[..i] && ids[..i + 1][i] == ids[i];
      ReleaseKeepsUnique(conn.Snapshot(), ids[i], newIds);
      var r := ReleaseDelayedReferralRewardInConn(conn, ids[i], newIds);
      match r {
        case Err(e) => aborted := e == DatabaseError;
        case Ok(None) =>
        case Ok(Some(row)) => paid := paid + [row];
      }
      i := i + 1;
    }
    if aborted {
      AbortedStays(old(conn.Snapshot()), ids, i, newIds);
    } else {
      assert ids[..|ids|] == ids;
    }
  }

  lemma {:induction false} AbortedStays(t: Tables, ids: seq<Id>, i: nat, newIds: NewIds)
    requires i <= |ids| && ReleasedAll(t, ids[..i], newIds).aborted
    ensures ReleasedAll(t, ids, newIds) == ReleasedAll(t, ids[..i], newIds)
  {
    if i < |ids| {
      assert ids[..|ids| - 1][..i] == ids[..i];
      AbortedStays(t, ids[..|ids| - 1], i, newIds);
    } else {
      assert ids[..i] == ids;
    }
  }

  lemma PostUnique(b: Book, p: Posting)
    requires UniqueWallets(b.wallets) && Post(b, p).Ok?
    ensures UniqueWallets(Post(b, p).value.book.wallets)
  {
    if !HasKey(b.ledger, p.app, p.key) {
      EnsuredUnique(b.wallets, p.account, p.user, p.app, p.walletId);
    }
  }

  lemma RewardKeepsUnique(t: Tables, id: Id, newIds: NewIds)
    requires UniqueWallets(t.book.wallets)
    ensures UniqueWallets(RewardApplied(t, id, newIds).0.book.wallets)
  {
    if id in t.referrals && t.referrals[id].rewardId.None? {
      var r := t.referrals[id];
      var account := FirstRewardable(t.dir.accounts, t.dir.bindings, r.inviter, r.app);
      if account.Some? && Applied(t, RewardRequest(r, id, account.value, newIds)).Ok? {
        var q := RewardRequest(r, id, account.value, newIds);
        PostUnique(t.book, PostingOf(q, ResolveScope(t.dir, q.account, Some(q.user)).value, false));
      }
    }
  }

  lemma ReleaseKeepsUnique(t: Tables, id: Id, newIds: NewIds)
    requires UniqueWallets(t.book.wallets)
    ensures UniqueWallets(DelayedReleased(t, id, newIds).0.book.wallets)
  {
    if id in t.referrals && HoldElapsed(t.referrals[id], t.dir.world.now) {
      RewardKeepsUnique(Put(t, id, t.referrals[id].(review := Passed)).(reviews := ReviewPassed(t, id)), id, newIds);
    }
  }

  /** `release_due_referral_rewards`; with an inviter, its per-user form. */
  method ReleaseDueReferralRewards(conn: Connection, order: seq<Id>, inviter: Option<Id>, app: Id, limit: int, newIds: NewIds)
    returns (paid: seq<LedgerRow>)
    requires Indexed(conn.Snapshot().book)
    modifies conn
    ensures (conn.Snapshot(), paid) == DueReleased(old(conn.Snapshot()), order, inviter, app,
                                                  Clamp(limit, if inviter.Some? then 500 else 1000), newIds)
  {
    var start := conn.Snapshot();
    var cap := Clamp(limit, if inviter.Some? then 500 else 1000);
    var ids := SelectDue(conn, order, inviter, app, Pending);
    ids := Limited(ids, cap);
    var aborted;
    paid, aborted := ReleaseAllInConn(conn, ids, newIds);
    if aborted {
      conn.Rollback(start);
    }
  }

  /** The second loop of a retry, which lets errors through. */
  method RewardAllInConn(conn: Connection, ids: seq<Id>, newIds: NewIds) returns (r: Result<seq<LedgerRow>>)
    requires UniqueWallets(conn.wallets)
    modifies conn`referrals, conn`wallets, conn`ledger
    ensures (conn.Snapshot(), r) == RewardedAll(old(conn.Snapshot()), ids, newIds)
  {
    var paid := [];
    for i := 0 to |ids|
      invariant UniqueWallets(conn.wallets)
      invariant (conn.Snapshot(), Ok(paid)) == RewardedAll(old(conn.Snapshot()), ids[..i], newIds)
    {
      assert ids[..i + 1][..i] == ids[..i];
      RewardKeepsUnique(conn.Snapshot(), ids[i], newIds);
      var step := ApplyReferralRewardInConn(conn, ids[i], newIds);
      match step {
        case Err(e) =>
          FailedStays(old(conn.Snapshot()), ids, i + 1, newIds);
          return Err(e);
        case Ok(None) =>
        case Ok(Some(row)) => paid := paid + [row];
      }
    }
    assert ids[..|ids|] == ids;
    return Ok(paid);
  }

  lemma {:induction false} FailedStays(t: Tables, ids: seq<Id>, i: nat, newIds: NewIds)
    requires i <= |ids| && RewardedAll(t, ids[..i], newIds).1.Err?
    ensures RewardedAll(t, ids, newIds) == RewardedAll(t, ids[..i], newIds)
  {
    if i < |ids| {
      assert ids[..|ids| - 1][..i] == ids[..i];
      FailedStays(t, ids[..|ids| - 1], i, newIds);
    } else {
      assert ids[..i] == ids;
    }
  }

  method RetryQualifiedReferralRewardsForUser(conn: Connection, order: seq<Id>, inviter: Id, app: Id, newIds: NewIds)
    returns (r: Result<seq<LedgerRow>>)
    requires Indexed(conn.Snapshot().book)
    modifies conn
    ensures (conn.Snapshot(), r) == Retried(old(conn.Snapshot()), order, inviter, app, newIds)
  {
    var start := conn.Snapshot();
    var due := SelectDue(conn, order, Some(inviter), app, Pending);
    due := Limited(due, 100);
    var paid, aborted := ReleaseAllInConn(conn, due, newIds);
    if aborted {
      conn.Rollback(start);
      return Err(DatabaseError);
    }
    ReleasedAllUnique(start, due, newIds);
    var ids := SelectDue(conn, order, Some(inviter), app, Passed);
    r := RewardAllInConn(conn, ids, newIds);
    if r.Err? {
      conn.Rollback(start);
    } else {
      r := Ok(paid + r.value);
    }
  }

  lemma {:induction false} ReleasedAllUnique(t: Tables, ids: seq<Id>, newIds: NewIds)
    requires UniqueWallets(t.book.wallets)
    ensures UniqueWallets(ReleasedAll(t, ids, newIds).t.book.wallets)
  {
    if ids != [] {
      ReleasedAllUnique(t, ids[..|ids| - 1], newIds);
      ReleaseKeepsUnique(ReleasedAll(t, ids[..|ids| - 1], newIds).t, ids[|ids| - 1], newIds);
    }
  }
}
