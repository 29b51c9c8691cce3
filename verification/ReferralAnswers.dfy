/** How the referral calls are answered, and whom a batch touches, said of the tables themselves. */
module ReferralAnswers {
  import opened Wrappers
  import opened Text
  import opened Ledger
  import opened Tables
  import opened Billing
  import opened Referral
  import opened ReferralRuns
  import opened PostingAnswers

  // ---- who is paid ----

  /** The i-th binding is the first active one that binds the user to an active account of the app. */
  predicate EarliestPayable(dir: Directory, user: Id, app: Id, account: Id, i: nat)
    requires i < |dir.bindings|
  {
    && CanTake(dir, user, app, dir.bindings[i]) && dir.bindings[i].account == account
    && forall j :: 0 <= j < i ==> !CanTake(dir, user, app, dir.bindings[j])
  }

  predicate CanTake(dir: Directory, user: Id, app: Id, b: Binding) {
    && b.user == user && b.app == app && b.active
    && b.account in dir.accounts && dir.accounts[b.account].app == app && dir.accounts[b.account].active
  }

  /** The account a user is rewarded at: the one of the earliest such binding, if there is any. */
  lemma {:induction false} RewardableIs(dir: Directory, user: Id, app: Id)
    ensures FirstRewardable(dir.accounts, dir.bindings, user, app).None? <==> forall b <- dir.bindings :: !CanTake(dir, user, app, b)
    ensures forall account, i: nat :: i < |dir.bindings| && EarliestPayable(dir, user, app, account, i) ==>
              FirstRewardable(dir.accounts, dir.bindings, user, app) == Some(account)
    decreases |dir.bindings|
  {
    if dir.bindings != [] {
      var (b, rest) := (dir.bindings[0], dir.(bindings := dir.bindings[1..]));
      RewardableIs(rest, user, app);
      assert dir.bindings == [b] + rest.bindings;
      assert forall x <- dir.bindings :: CanTake(dir, user, app, x) == CanTake(rest, user, app, x);
      if !CanTake(dir, user, app, b) {
        forall account, i: nat | i < |dir.bindings| && EarliestPayable(dir, user, app, account, i)
          ensures FirstRewardable(dir.accounts, dir.bindings, user, app) == Some(account)
        {
          assert EarliestPayable(rest, user, app, account, i - 1) by {
            assert forall j :: 0 <= j < i - 1 ==> rest.bindings[j] == dir.bindings[j + 1];
          }
        }
      }
    }
  }

  /** The reward's posting: a thousand shells to the inviter, at the given account, under the
      relationship's own key. */
  function RewardPosting(r: Relationship, id: Id, account: Id, newIds: NewIds): Posting {
    Posting(account, r.inviter, r.app, 1000 * 1_000_000, Credit, ReferralReward, Trimmed(Some(id)), RewardOf(id), false,
            newIds(id).0, newIds(id).1)
  }

  /** Paying a relationship: nothing for a missing or rewarded one; without an account to pay at it is
      marked qualified, passed and blocked; otherwise the reward is posted, and the row is rewarded exactly
      when the posting succeeds. Nothing else changes. */
  lemma RewardAnswers(t: Tables, id: Id, newIds: NewIds)
    ensures var (t', r) := RewardApplied(t, id, newIds);
            && (id !in t.referrals || t.referrals[id].rewardId.Some? ==> t' == t && r == Ok(None))
            && (id in t.referrals && t.referrals[id].rewardId.None? ==>
                 var row := t.referrals[id];
                 && ((forall b <- t.dir.bindings :: !CanTake(t.dir, row.inviter, row.app, b)) ==>
                      r == Ok(None)
                      && t' == t.(referrals := t.referrals[id := row.(status := Qualified, review := Passed, blocked := true)]))
                 && (forall account, i: nat :: i < |t.dir.bindings| && EarliestPayable(t.dir, row.inviter, row.app, account, i) ==>
                      PaidAt(t, id, account, newIds, t', r)))
  {
    if id in t.referrals && t.referrals[id].rewardId.None? {
      var row := t.referrals[id];
      RewardableIs(t.dir, row.inviter, row.app);
      forall account, i: nat | i < |t.dir.bindings| && EarliestPayable(t.dir, row.inviter, row.app, account, i)
        ensures PaidAt(t, id, account, newIds, RewardApplied(t, id, newIds).0, RewardApplied(t, id, newIds).1)
      {
        PaidAtAccount(t, id, account, newIds);
      }
    }
  }

  ghost predicate PaidAt(t: Tables, id: Id, account: Id, newIds: NewIds, t': Tables, r: Result<Option<LedgerRow>>)
    requires id in t.referrals
  {
    var row := t.referrals[id];
    if BillableAs(t.dir, account, row.inviter, row.app) then
      match Post(t.book, RewardPosting(row, id, account, newIds))
      case Err(e) => r == Err(e) && t' == t
      case Ok(posted) =>
        && r == Ok(Some(posted.row))
        && t' == t.(book := posted.book,
                    referrals := t.referrals[id := row.(status := Rewarded, review := Passed, rewardId := Some(posted.row.id),
                                                        rewardedAt := if row.rewardedAt.Some? then row.rewardedAt else Some(t.dir.world.now))])
    else r.Err? && t' == t
  }

  lemma PaidAtAccount(t: Tables, id: Id, account: Id, newIds: NewIds)
    requires id in t.referrals && t.referrals[id].rewardId.None? && account in t.dir.accounts && t.dir.accounts[account].app == t.referrals[id].app
    requires FirstRewardable(t.dir.accounts, t.dir.bindings, t.referrals[id].inviter, t.referrals[id].app) == Some(account)
    ensures PaidAt(t, id, account, newIds, RewardApplied(t, id, newIds).0, RewardApplied(t, id, newIds).1)
  {
    var row := t.referrals[id];
    ScopeAnswers(t.dir, account, Some(row.inviter));
    if BillableAs(t.dir, account, row.inviter, row.app) {
      var q := RewardRequest(row, id, account, newIds);
      assert PostingOf(q, Scope(row.inviter, row.app), false) == RewardPosting(row, id, account, newIds);
      assert Applied(t, q) == Post(t.book, RewardPosting(row, id, account, newIds));
    }
  }

  // ---- binding and release ----

  /** Binding touches only the relationship of the invitee in the account's product, when it has an active
      membership there and is not bound yet; it keeps the account it was first bound through. */
  lemma BindAnswers(t: Tables, invitee: Id, account: Id)
    requires OneReferralEach(t.referrals)
    ensures var t' := MarkedBound(t, invitee, account).0;
            && t'.referrals.Keys == t.referrals.Keys && t' == t.(referrals := t'.referrals)
            && forall id <- t.referrals ::
                 t'.referrals[id] ==
                 var r := t.referrals[id];
                 if account in t.dir.accounts && r.invitee == invitee && r.app == t.dir.accounts[account].app
                    && (invitee, r.app) in t.dir.world.members && (r.status == PendingRegistration || r.status == Registered)
                 then r.(status := Bound, boundAccount := if r.boundAccount.Some? then r.boundAccount else Some(account))
                 else r
  {
    forall id <- t.referrals | account in t.dir.accounts && t.referrals[id].invitee == invitee && t.referrals[id].app == t.dir.accounts[account].app
      ensures FindReferral(t.referrals, invitee, t.dir.accounts[account].app) == Some(id)
    {
      assert Between(t.referrals[id], invitee, t.dir.accounts[account].app);
    }
  }

  /** The relationship waits for nothing but time: qualified, under soft review, unpaid, and due. */
  predicate Due(r: Relationship, now: int) {
    r.status == Qualified && r.softReview && r.review == Pending && r.rewardId == None && r.releaseAfter.Some? && r.releaseAfter.value <= now
  }

  /** A release does nothing to a relationship that is not due; a due one passes its review, in the row and
      in the review table, and is then paid like any other. */
  lemma ReleaseAnswers(t: Tables, id: Id, newIds: NewIds)
    ensures var (t', r) := DelayedReleased(t, id, newIds);
            && (id !in t.referrals || !Due(t.referrals[id], t.dir.world.now) ==> t' == t && r == Ok(None))
            && (id in t.referrals && Due(t.referrals[id], t.dir.world.now) ==>
                 var row := t.referrals[id];
                 var known := id in t.reviews || row.boundAccount.Some? || exists b <- t.dir.bindings :: CanTake(t.dir, row.invitee, row.app, b);
                 (t', r) == RewardApplied(t.(referrals := t.referrals[id := row.(review := Passed)],
                                             reviews := if known then t.reviews[id := Passed] else t.reviews), id, newIds))
  {
    if id in t.referrals {
      RewardableIs(t.dir, t.referrals[id].invitee, t.referrals[id].app);
    }
  }

  // ---- batches ----

  /** A batch releases, of the ids in its order, the first ones that are unpaid, qualified and pending in the
      product (and of the inviter when one is given), at most as many as its limit. */
  lemma {:induction false} SelectIs(referrals: map<Id, Relationship>, order: seq<Id>, inviter: Option<Id>, app: Id, review: Review) returns (at: seq<nat>)
    ensures var picked := Select(referrals, order, inviter, app, review);
            && |at| == |picked|
            && (forall k :: 0 <= k < |at| ==> at[k] < |order| && order[at[k]] == picked[k] && Waiting(referrals, picked[k], inviter, app, review))
            && (forall i, j :: 0 <= i < j < |at| ==> at[i] < at[j])
            && forall i: nat :: i < |order| && Waiting(referrals, order[i], inviter, app, review) ==> i in at
  {
    if order == [] {
      at := [];
    } else {
      var n := |order| - 1;
      var pre := SelectIs(referrals, order[..n], inviter, app, review);
      at := pre + if Waiting(referrals, order[n], inviter, app, review) then [n] else [];
      forall i: nat | i < |order| && Waiting(referrals, order[i], inviter, app, review) ensures i in at {
        assert i < n ==> order[..n][i] == order[i] && i in pre;
        assert i == n ==> at[|pre|] == n;
      }
    }
  }

  predicate Waiting(referrals: map<Id, Relationship>, id: Id, inviter: Option<Id>, app: Id, review: Review) {
    && id in referrals && referrals[id].status == Qualified && referrals[id].review == review && referrals[id].rewardId == None
    && referrals[id].app == app && (inviter == None || inviter == Some(referrals[id].inviter))
  }

  lemma ReleaseTouchesOne(t: Tables, id: Id, newIds: NewIds, other: Id)
    requires other != id && other in t.referrals
    ensures var t' := DelayedReleased(t, id, newIds).0;
            other in t'.referrals && t'.referrals[other] == t.referrals[other] && t'.dir == t.dir
  {
    if id in t.referrals && HoldElapsed(t.referrals[id], t.dir.world.now) {
      RewardTouchesOne(Put(t, id, t.referrals[id].(review := Passed)).(reviews := ReviewPassed(t, id)), id, newIds, other);
    }
  }

  lemma RewardTouchesOne(t: Tables, id: Id, newIds: NewIds, other: Id)
    requires other != id && other in t.referrals
    ensures var t' := RewardApplied(t, id, newIds).0;
            other in t'.referrals && t'.referrals[other] == t.referrals[other] && t'.dir == t.dir
  {
  }

  /** A relationship that is not in the list is not touched by releasing the list. */
  lemma {:induction false} BatchTouchesItsOwn(t: Tables, ids: seq<Id>, newIds: NewIds, other: Id)
    requires other !in ids && other in t.referrals
    ensures other in ReleasedAll(t, ids, newIds).t.referrals && ReleasedAll(t, ids, newIds).t.referrals[other] == t.referrals[other]
    ensures ReleasedAll(t, ids, newIds).t.dir == t.dir
  {
    if ids != [] {
      var b := ReleasedAll(t, ids[..|ids| - 1], newIds);
      BatchTouchesItsOwn(t, ids[..|ids| - 1], newIds, other);
      if !b.aborted {
        assert ids[|ids| - 1] in ids;
        ReleaseTouchesOne(b.t, ids[|ids| - 1], newIds, other);
      }
    }
  }

  lemma ReleaseEndsWait(t: Tables, id: Id, newIds: NewIds, x: Id)
    requires x in t.referrals && (x == id || t.referrals[x].review == Passed)
    requires x == id ==> Due(t.referrals[x], t.dir.world.now) || t.referrals[x].review == Passed
    ensures var t' := DelayedReleased(t, id, newIds).0; x in t'.referrals && t'.referrals[x].review == Passed
  {
  }

  /** Unless a database error stops it, a batch leaves no due relationship of its list waiting: each has
      passed its review, whether or not its reward could be posted. */
  lemma {:induction false} BatchEndsWait(t: Tables, ids: seq<Id>, newIds: NewIds, x: Id)
    requires x in ids && x in t.referrals && Due(t.referrals[x], t.dir.world.now) && !ReleasedAll(t, ids, newIds).aborted
    ensures x in ReleasedAll(t, ids, newIds).t.referrals && ReleasedAll(t, ids, newIds).t.referrals[x].review == Passed
  {
    var (pre, id) := (ids[..|ids| - 1], ids[|ids| - 1]);
    var b := ReleasedAll(t, pre, newIds);
    if x in pre {
      BatchEndsWait(t, pre, newIds, x);
      if x != id {
        ReleaseTouchesOne(b.t, id, newIds, x);
      } else {
        ReleaseEndsWait(b.t, id, newIds, x);
      }
    } else {
      BatchTouchesItsOwn(t, pre, newIds, x);
      ReleaseEndsWait(b.t, id, newIds, x);
    }
  }

  /** A batch goes through at least one row and at most as many as the caller asked for and the call allows,
      the first ones of its list. */
  lemma BatchLimit(ids: seq<Id>, limit: int, most: nat)
    requires most >= 1
    ensures 1 <= Clamp(limit, most) <= most && (1 <= limit <= most ==> Clamp(limit, most) == limit)
    ensures limit < 1 ==> Clamp(limit, most) == 1
    ensures limit > most ==> Clamp(limit, most) == most
    ensures Limited(ids, Clamp(limit, most)) <= ids
    ensures |Limited(ids, Clamp(limit, most))| == if |ids| < Clamp(limit, most) then |ids| else Clamp(limit, most)
  {
  }

  // ---- what a batch reports ----

  function Reported(r: Result<Option<LedgerRow>>): seq<LedgerRow> {
    match r
    case Err(_) => []
    case Ok(None) => []
    case Ok(Some(row)) => [row]
  }

  lemma RewardReports(t: Tables, id: Id, newIds: NewIds)
    requires RewardInv(t.book.ledger, t.referrals)
    ensures RewardApplied(t, id, newIds).0.book.ledger == t.book.ledger + Reported(RewardApplied(t, id, newIds).1)
  {
    assert t.book.ledger + [] == t.book.ledger;
    if id in t.referrals && t.referrals[id].rewardId.None? {
      var r := t.referrals[id];
      NoRewardYet(t.book.ledger, t.referrals, id);
      var account := FirstRewardable(t.dir.accounts, t.dir.bindings, r.inviter, r.app);
      if account.Some? && Applied(t, RewardRequest(r, id, account.value, newIds)).Ok? {
        PostAppends(t.book, PostingOf(RewardRequest(r, id, account.value, newIds), ResolveScope(t.dir, account.value, Some(r.inviter)).value, false));
      }
    }
  }

  lemma ReleaseReports(t: Tables, id: Id, newIds: NewIds)
    requires Inv(t)
    ensures DelayedReleased(t, id, newIds).0.book.ledger == t.book.ledger + Reported(DelayedReleased(t, id, newIds).1)
  {
    assert t.book.ledger + [] == t.book.ledger;
    if id in t.referrals && HoldElapsed(t.referrals[id], t.dir.world.now) {
      assert RelationshipOk(t.referrals[id], t.dir.world.now);
      PutKeeps(t, id, t.referrals[id].(review := Passed), ReviewPassed(t, id));
      RewardReports(Put(t, id, t.referrals[id].(review := Passed)).(reviews := ReviewPassed(t, id)), id, newIds);
    }
  }

  /** A batch reports exactly the rows it has added to the ledger, in order. */
  lemma {:induction false} BatchReports(t: Tables, ids: seq<Id>, newIds: NewIds)
    requires Inv(t)
    ensures ReleasedAll(t, ids, newIds).t.book.ledger == t.book.ledger + ReleasedAll(t, ids, newIds).paid
  {
    if ids == [] {
      assert t.book.ledger + [] == t.book.ledger;
    } else {
      var (b, id) := (ReleasedAll(t, ids[..|ids| - 1], newIds), ids[|ids| - 1]);
      BatchReports(t, ids[..|ids| - 1], newIds);
      ReleasedAllKeeps(t, ids[..|ids| - 1], newIds);
      if !b.aborted {
        ReleaseReports(b.t, id, newIds);
        var reported := Reported(DelayedReleased(b.t, id, newIds).1);
        assert b.paid + [] == b.paid;
        assert ReleasedAll(t, ids, newIds).paid == b.paid + reported;
        assert t.book.ledger + (b.paid + reported) == (t.book.ledger + b.paid) + reported;
      }
    }
  }

  // ---- all or nothing ----

  /** The k-th release of the list is the first to meet a database error. */
  ghost predicate FailsAt(t: Tables, ids: seq<Id>, newIds: NewIds, k: nat)
    requires k < |ids|
  {
    var b := ReleasedAll(t, ids[..k], newIds);
    !b.aborted && DelayedReleased(b.t, ids[k], newIds).1 == Err(DatabaseError)
  }

  lemma FailsInPrefix(t: Tables, ids: seq<Id>, newIds: NewIds, n: nat, k: nat)
    requires k < n <= |ids|
    ensures FailsAt(t, ids, newIds, k) == FailsAt(t, ids[..n], newIds, k)
  {
    assert ids[..n][..k] == ids[..k];
  }

  lemma AbortedStep(t: Tables, ids: seq<Id>, newIds: NewIds)
    requires ids != []
    ensures ReleasedAll(t, ids, newIds).aborted <==> ReleasedAll(t, ids[..|ids| - 1], newIds).aborted || FailsAt(t, ids, newIds, |ids| - 1)
  {
  }

  lemma {:induction false} AbortsAt(t: Tables, ids: seq<Id>, newIds: NewIds) returns (k: nat)
    requires ReleasedAll(t, ids, newIds).aborted
    ensures k < |ids| && FailsAt(t, ids, newIds, k)
  {
    k := |ids| - 1;
    if ReleasedAll(t, ids[..k], newIds).aborted {
      var n := k;
      k := AbortsAt(t, ids[..n], newIds);
      FailsInPrefix(t, ids, newIds, n, k);
    }
  }

  lemma {:induction false} AbortStays(t: Tables, ids: seq<Id>, newIds: NewIds, n: nat)
    requires n <= |ids| && ReleasedAll(t, ids[..n], newIds).aborted
    ensures ReleasedAll(t, ids, newIds).aborted
  {
    if n < |ids| {
      assert ids[..|ids| - 1][..n] == ids[..n];
      AbortStays(t, ids[..|ids| - 1], newIds, n);
    } else {
      assert ids[..n] == ids;
    }
  }

  lemma FailureAborts(t: Tables, ids: seq<Id>, newIds: NewIds, k: nat)
    requires k < |ids| && FailsAt(t, ids, newIds, k)
    ensures ReleasedAll(t, ids, newIds).aborted
  {
    FailsInPrefix(t, ids, newIds, k + 1, k);
    AbortedStep(t, ids[..k + 1], newIds);
    AbortStays(t, ids, newIds, k + 1);
  }

  lemma AbortedMeans(t: Tables, ids: seq<Id>, newIds: NewIds)
    ensures ReleasedAll(t, ids, newIds).aborted <==> exists k: nat :: k < |ids| && FailsAt(t, ids, newIds, k)
  {
    if ReleasedAll(t, ids, newIds).aborted {
      var k := AbortsAt(t, ids, newIds);
      assert FailsAt(t, ids, newIds, k);
    }
    forall k: nat | k < |ids| && FailsAt(t, ids, newIds, k) ensures ReleasedAll(t, ids, newIds).aborted {
      FailureAborts(t, ids, newIds, k);
    }
  }

  ghost predicate ReviewPassedFor(referrals: map<Id, Relationship>, x: Id) {
    x in referrals && referrals[x].review == Passed
  }

  lemma BatchEndsWaits(t: Tables, ids: seq<Id>, newIds: NewIds)
    requires !ReleasedAll(t, ids, newIds).aborted
    ensures forall x <- ids :: x in t.referrals && Due(t.referrals[x], t.dir.world.now) ==>
              ReviewPassedFor(ReleasedAll(t, ids, newIds).t.referrals, x)
  {
    forall x <- ids | x in t.referrals && Due(t.referrals[x], t.dir.world.now)
      ensures ReviewPassedFor(ReleasedAll(t, ids, newIds).t.referrals, x)
    {
      BatchEndsWait(t, ids, newIds, x);
    }
  }

  ghost predicate WaitsEnded(t: Tables, ids: seq<Id>, referrals: map<Id, Relationship>) {
    forall x <- ids :: x in t.referrals && Due(t.referrals[x], t.dir.world.now) ==> ReviewPassedFor(referrals, x)
  }

  ghost predicate SomeFails(t: Tables, ids: seq<Id>, newIds: NewIds) {
    exists k: nat :: k < |ids| && FailsAt(t, ids, newIds, k)
  }

  lemma BatchOutcome(t: Tables, ids: seq<Id>, newIds: NewIds)
    requires Inv(t)
    ensures var b := ReleasedAll(t, ids, newIds);
            && (b.aborted <==> SomeFails(t, ids, newIds))
            && b.t.book.ledger == t.book.ledger + b.paid
            && (!b.aborted ==> WaitsEnded(t, ids, b.t.referrals))
  {
    BatchReports(t, ids, newIds);
    AbortedMeans(t, ids, newIds);
    if !ReleasedAll(t, ids, newIds).aborted {
      BatchEndsWaits(t, ids, newIds);
    }
  }

  /** The public batch commits nothing when one of its releases meets a database error; otherwise every due
      relationship of its list has passed its review, and it reports exactly the rows it has added. */
  lemma BatchAnswers(t: Tables, order: seq<Id>, inviter: Option<Id>, app: Id, limit: nat, newIds: NewIds)
    requires Inv(t)
    ensures var ids := Limited(Select(t.referrals, order, inviter, app, Pending), limit);
            var (t', paid) := DueReleased(t, order, inviter, app, limit, newIds);
            if SomeFails(t, ids, newIds) then t' == t
            else t'.book.ledger == t.book.ledger + paid && WaitsEnded(t, ids, t'.referrals)
  {
    BatchOutcome(t, Limited(Select(t.referrals, order, inviter, app, Pending), limit), newIds);
  }

  // ---- retries ----

  /** The relationship is paid, or marked as having nowhere to be paid. */
  predicate Settled(referrals: map<Id, Relationship>, id: Id) {
    id in referrals && (referrals[id].rewardId.Some? || referrals[id].blocked)
  }

  lemma RewardSettles(t: Tables, id: Id, newIds: NewIds, x: Id)
    requires Settled(t.referrals, x) || (x == id && x in t.referrals && RewardApplied(t, id, newIds).1.Ok?)
    ensures Settled(RewardApplied(t, id, newIds).0.referrals, x)
  {
  }

  lemma {:induction false} RewardedAllSettles(t: Tables, ids: seq<Id>, newIds: NewIds, x: Id)
    requires x in t.referrals && RewardedAll(t, ids, newIds).1.Ok? && (x in ids || Settled(t.referrals, x))
    ensures Settled(RewardedAll(t, ids, newIds).0.referrals, x)
  {
    if ids != [] {
      var (pre, id) := (ids[..|ids| - 1], ids[|ids| - 1]);
      var mid := RewardedAll(t, pre, newIds).0;
      if x in pre || Settled(t.referrals, x) {
        RewardedAllSettles(t, pre, newIds, x);
      } else {
        RewardedAllTouches(t, pre, newIds, x);
      }
      RewardSettles(mid, id, newIds, x);
    }
  }

  lemma {:induction false} RewardedAllTouches(t: Tables, ids: seq<Id>, newIds: NewIds, x: Id)
    requires x in t.referrals && x !in ids
    ensures x in RewardedAll(t, ids, newIds).0.referrals
  {
    if ids != [] {
      var mid := RewardedAll(t, ids[..|ids| - 1], newIds).0;
      assert ids[|ids| - 1] in ids;
      RewardedAllTouches(t, ids[..|ids| - 1], newIds, x);
      if RewardedAll(t, ids[..|ids| - 1], newIds).1.Ok? {
        RewardTouchesOne(mid, ids[|ids| - 1], newIds, x);
      }
    }
  }

  lemma {:induction false} SelectHolds(referrals: map<Id, Relationship>, order: seq<Id>, inviter: Option<Id>, app: Id, review: Review, x: Id)
    ensures x in Select(referrals, order, inviter, app, review) <==> x in order && Waiting(referrals, x, inviter, app, review)
  {
    if order != [] {
      SelectHolds(referrals, order[..|order| - 1], inviter, app, review, x);
    }
  }

  /** A retry that fails changes nothing; one that succeeds leaves no relationship of the inviter in the
      product that had passed its review without either its reward or the mark that there is nowhere to pay
      it. */
  lemma RetryAnswers(t: Tables, order: seq<Id>, inviter: Id, app: Id, newIds: NewIds, x: Id)
    requires x in order && Waiting(t.referrals, x, Some(inviter), app, Passed)
    ensures var (t', r) := Retried(t, order, inviter, app, newIds);
            if r.Err? then t' == t else Settled(t'.referrals, x)
  {
    var due := Limited(Select(t.referrals, order, Some(inviter), app, Pending), 100);
    var b := ReleasedAll(t, due, newIds);
    SelectHolds(t.referrals, order, Some(inviter), app, Pending, x);
    BatchTouchesItsOwn(t, due, newIds, x);
    if !b.aborted {
      var ids := Select(b.t.referrals, order, Some(inviter), app, Passed);
      SelectHolds(b.t.referrals, order, Some(inviter), app, Passed, x);
      if RewardedAll(b.t, ids, newIds).1.Ok? {
        RewardedAllSettles(b.t, ids, newIds, x);
      }
    }
  }
}
