/** The referral invariant, and that every referral call keeps it and only moves forward. */
module ReferralRuns {
  import opened Wrappers
  import opened Text
  import opened Ledger
  import opened Tables
  import opened Billing
  import opened BillingRuns
  import opened Referral

  function Rank(s: Status): nat {
    match s
    case PendingRegistration => 0
    case Registered => 1
    case Bound => 2
    case Qualified => 3
    case Rewarded => 4
  }

  predicate Distinct(s: seq<int>) {
    forall i, j :: 0 <= i < j < |s| ==> s[i] != s[j]
  }

  predicate AtMost(a: Option<int>, b: Option<int>) {
    a.Some? && b.Some? && a.value <= b.value
  }

  /** What every relationship row satisfies at time `now`. */
  ghost predicate RelationshipOk(r: Relationship, now: int) {
    && r.count == |r.candidates| && Distinct(r.candidates)
    && (Rank(r.status) >= 3 <==> r.count >= QUALIFYING_MESSAGES)
    && (r.status == Rewarded <==> r.rewardId.Some?) && (r.status == Rewarded <==> r.rewardedAt.Some?)
    && !r.review.Failed? && (r.review == Passed ==> Rank(r.status) >= 3) && (r.status == Rewarded ==> r.review == Passed)
    && (r.releaseAfter.Some? <==> r.qualifiedAt.Some?) && (r.releaseAfter.Some? ==> Rank(r.status) >= 3)
    && (r.releaseAfter.Some? ==> r.releaseAfter.value == r.qualifiedAt.value + HOLD)
    && (r.softReview && Rank(r.status) >= 3 ==> r.releaseAfter.Some?)
    && (r.softReview && r.review == Passed ==> AtMost(r.releaseAfter, Some(now)))
    && (r.softReview && r.status == Rewarded ==> AtMost(r.releaseAfter, r.rewardedAt))
    && (r.status == Rewarded ==> AtMost(r.rewardedAt, Some(now)))
  }

  ghost predicate RewardRowOf(row: LedgerRow, id: Id, r: Relationship) {
    && r.rewardId == Some(row.id) && Keyed(row, r.app, RewardOf(id)) && row.user == r.inviter
    && row.amount == REWARD_MICROS && row.source == ReferralReward
  }

  ghost predicate RewardBacked(ledger: seq<LedgerRow>, id: Id, r: Relationship) {
    exists row <- ledger :: RewardRowOf(row, id, r)
  }

  ghost predicate RewardsBacked(ledger: seq<LedgerRow>, referrals: map<Id, Relationship>) {
    forall id {:trigger RewardBacked(ledger, id, referrals[id])} ::
      id in referrals && referrals[id].rewardId.Some? ==> RewardBacked(ledger, id, referrals[id])
  }

  ghost predicate RewardRowsClaimed(ledger: seq<LedgerRow>, referrals: map<Id, Relationship>) {
    forall row <- ledger | row.key.RewardOf? ::
      && row.key.text in referrals && referrals[row.key.text].app == row.app
      && referrals[row.key.text].rewardId == Some(row.id)
  }

  ghost predicate RelationshipsOk(referrals: map<Id, Relationship>, now: int) {
    forall id {:trigger RelationshipOk(referrals[id], now)} :: id in referrals ==> RelationshipOk(referrals[id], now)
  }

  /** Rewarded relationships and reward rows match one to one. */
  ghost predicate RewardInv(ledger: seq<LedgerRow>, referrals: map<Id, Relationship>) {
    forall k {:trigger Unfold(k)} :: Unfold(k) ==>
      OneReferralEach(referrals) && RewardsBacked(ledger, referrals) && RewardRowsClaimed(ledger, referrals)
  }

  ghost predicate ReferralInv(t: Tables) {
    RelationshipsOk(t.referrals, t.dir.world.now) && RewardInv(t.book.ledger, t.referrals)
  }

  ghost predicate Inv(t: Tables) {
    BillingInv(t) && ReferralInv(t)
  }

  // ---- moving forward ----

  predicate Fixed<T(==)>(a: Option<T>, b: Option<T>) {
    a.Some? ==> b == a
  }

  /** A row only moves forward: its parties and flag are fixed, its status never goes back, its
      candidates are only appended to, and what is once set stays. */
  ghost predicate Forward(r: Relationship, r': Relationship) {
    && r'.inviter == r.inviter && r'.invitee == r.invitee && r'.app == r.app && r'.softReview == r.softReview
    && Rank(r.status) <= Rank(r'.status) && r.candidates <= r'.candidates
    && Fixed(r.qualifiedAt, r'.qualifiedAt) && Fixed(r.releaseAfter, r'.releaseAfter)
    && Fixed(r.rewardId, r'.rewardId) && Fixed(r.rewardedAt, r'.rewardedAt)
  }

  ghost predicate AllForward(before: map<Id, Relationship>, after: map<Id, Relationship>) {
    && before.Keys <= after.Keys
    && forall id {:trigger Forward(before[id], after[id])} :: id in before ==> Forward(before[id], after[id])
  }

  lemma ForwardTwice(a: map<Id, Relationship>, b: map<Id, Relationship>, c: map<Id, Relationship>)
    requires AllForward(a, b) && AllForward(b, c)
    ensures AllForward(a, c)
  {
    forall id | id in a ensures Forward(a[id], c[id]) {
      assert Forward(a[id], b[id]) && Forward(b[id], c[id]);
    }
  }

  /** What one call may do to the referral state. */
  ghost predicate Progress(t: Tables, t': Tables) {
    Inv(t') && AllForward(t.referrals, t'.referrals) && t'.dir == t.dir
  }

  // ---- single updates ----

  lemma PutBacked(ledger: seq<LedgerRow>, referrals: map<Id, Relationship>, id: Id, r: Relationship)
    requires RewardsBacked(ledger, referrals) && id in referrals && Forward(referrals[id], r)
    requires r.rewardId == referrals[id].rewardId
    ensures RewardsBacked(ledger, referrals[id := r])
  {
    var after := referrals[id := r];
    forall x | x in after && after[x].rewardId.Some? ensures RewardBacked(ledger, x, after[x]) {
      assert RewardBacked(ledger, x, referrals[x]);
      var row :| row in ledger && RewardRowOf(row, x, referrals[x]);
      assert RewardRowOf(row, x, after[x]);
    }
  }

  /** Replacing one row by a sound successor, with its reward untouched, keeps everything. */
  lemma PutKeeps(t: Tables, id: Id, r: Relationship, reviews: map<Id, Review>)
    requires Inv(t) && id in t.referrals && RelationshipOk(r, t.dir.world.now) && Forward(t.referrals[id], r)
    requires r.rewardId == t.referrals[id].rewardId
    ensures Progress(t, Put(t, id, r).(reviews := reviews))
  {
    assert Unfold(0);
    PutBacked(t.book.ledger, t.referrals, id, r);
    PutIndexed(t.referrals, id, r);
    PutClaimed(t.book.ledger, t.referrals, id, r);
  }

  lemma PutIndexed(referrals: map<Id, Relationship>, id: Id, r: Relationship)
    requires OneReferralEach(referrals) && id in referrals && Forward(referrals[id], r)
    ensures OneReferralEach(referrals[id := r])
  {
    var after := referrals[id := r];
    forall x <- after, y <- after | Between(after[x], after[y].invitee, after[y].app) ensures x == y {
      assert Between(referrals[x], referrals[y].invitee, referrals[y].app);
    }
  }

  lemma PutClaimed(ledger: seq<LedgerRow>, referrals: map<Id, Relationship>, id: Id, r: Relationship)
    requires RewardRowsClaimed(ledger, referrals) && id in referrals && Forward(referrals[id], r)
    requires r.rewardId == referrals[id].rewardId
    ensures RewardRowsClaimed(ledger, referrals[id := r])
  {
  }

  /** A relationship may be rewarded when it has qualified and any hold on it has elapsed. */
  ghost predicate Payable(r: Relationship, now: int) {
    r.rewardId.None? ==> r.status == Qualified && (r.softReview ==> AtMost(r.releaseAfter, Some(now)))
  }

  lemma NoRewardYet(ledger: seq<LedgerRow>, referrals: map<Id, Relationship>, id: Id)
    requires RewardInv(ledger, referrals) && id in referrals && referrals[id].rewardId.None?
    ensures !HasKey(ledger, referrals[id].app, RewardOf(id))
  {
    assert Unfold(0);
  }

  lemma RewardRowPosted(t: Tables, id: Id, account: Id, newIds: NewIds)
    requires BillingInv(t) && id in t.referrals && !HasKey(t.book.ledger, t.referrals[id].app, RewardOf(id))
    requires account in t.dir.accounts && t.dir.accounts[account].app == t.referrals[id].app
    requires Applied(t, RewardRequest(t.referrals[id], id, account, newIds)).Ok?
    ensures var posted := Applied(t, RewardRequest(t.referrals[id], id, account, newIds)).value;
            && BillingInv(t.(book := posted.book))
            && posted.book.ledger == t.book.ledger + [posted.row]
            && Keyed(posted.row, t.referrals[id].app, RewardOf(id)) && posted.row.user == t.referrals[id].inviter
            && posted.row.amount == REWARD_MICROS && posted.row.source == ReferralReward
  {
    var q := RewardRequest(t.referrals[id], id, account, newIds);
    var p := PostingOf(q, ResolveScope(t.dir, account, Some(q.user)).value, false);
    PostAppends(t.book, p);
    PostKeeps(t, p);
  }

  /** The reward is paid at most once, only to a payable relationship, and by exactly one row. */
  lemma RewardKeeps(t: Tables, id: Id, newIds: NewIds)
    requires Inv(t) && (id in t.referrals ==> Payable(t.referrals[id], t.dir.world.now))
    ensures Progress(t, RewardApplied(t, id, newIds).0)
  {
    if id in t.referrals && t.referrals[id].rewardId.None? {
      var r := t.referrals[id];
      assert RelationshipOk(r, t.dir.world.now);
      match FirstRewardable(t.dir.accounts, t.dir.bindings, r.inviter, r.app)
      case None =>
        PutKeeps(t, id, r.(status := Qualified, review := Passed, blocked := true), t.reviews);
      case Some(account) =>
        if Applied(t, RewardRequest(r, id, account, newIds)).Ok? {
          NoRewardYet(t.book.ledger, t.referrals, id);
          RewardRowPosted(t, id, account, newIds);
          PaidKeeps(t, id, Applied(t, RewardRequest(r, id, account, newIds)).value);
        }
    }
  }

  lemma PaidBacked(ledger: seq<LedgerRow>, row: LedgerRow, referrals: map<Id, Relationship>, id: Id, r: Relationship)
    requires RewardsBacked(ledger, referrals) && RewardRowOf(row, id, r)
    ensures RewardsBacked(ledger + [row], referrals[id := r])
  {
    var after := referrals[id := r];
    assert row in ledger + [row];
    forall x | x in after && after[x].rewardId.Some? ensures RewardBacked(ledger + [row], x, after[x]) {
      if x != id {
        assert RewardBacked(ledger, x, referrals[x]);
        var q :| q in ledger && RewardRowOf(q, x, referrals[x]);
        assert q in ledger + [row];
      }
    }
  }

  lemma PaidClaimed(ledger: seq<LedgerRow>, row: LedgerRow, referrals: map<Id, Relationship>, id: Id, r: Relationship)
    requires RewardRowsClaimed(ledger, referrals) && RewardRowOf(row, id, r)
    requires id in referrals && referrals[id].rewardId.None? && r.app == referrals[id].app
    ensures RewardRowsClaimed(ledger + [row], referrals[id := r])
  {
  }

  function Paid(r: Relationship, row: LedgerRow, now: int): Relationship {
    r.(status := Rewarded, review := Passed, rewardId := Some(row.id), rewardedAt := OrElse(r.rewardedAt, now))
  }

  lemma PaidOk(r: Relationship, row: LedgerRow, now: int)
    requires RelationshipOk(r, now) && r.rewardId.None? && Payable(r, now)
    ensures RelationshipOk(Paid(r, row, now), now) && Forward(r, Paid(r, row, now))
  {
  }

  lemma PaidKeeps(t: Tables, id: Id, posted: Posted)
    requires Inv(t) && id in t.referrals && t.referrals[id].rewardId.None? && Payable(t.referrals[id], t.dir.world.now)
    requires BillingInv(t.(book := posted.book)) && posted.book.ledger == t.book.ledger + [posted.row]
    requires Keyed(posted.row, t.referrals[id].app, RewardOf(id)) && posted.row.user == t.referrals[id].inviter
    requires posted.row.amount == REWARD_MICROS && posted.row.source == ReferralReward
    ensures Progress(t, Put(t.(book := posted.book), id, Paid(t.referrals[id], posted.row, t.dir.world.now)))
  {
    assert Unfold(0);
    var r := t.referrals[id];
    var r' := Paid(r, posted.row, t.dir.world.now);
    PaidOk(r, posted.row, t.dir.world.now);
    PaidBacked(t.book.ledger, posted.row, t.referrals, id, r');
    PaidClaimed(t.book.ledger, posted.row, t.referrals, id, r');
    PutIndexed(t.referrals, id, r');
  }

  lemma ReleaseKeeps(t: Tables, id: Id, newIds: NewIds)
    requires Inv(t)
    ensures Progress(t, DelayedReleased(t, id, newIds).0)
  {
    if id in t.referrals && HoldElapsed(t.referrals[id], t.dir.world.now) {
      assert RelationshipOk(t.referrals[id], t.dir.world.now);
      PutKeeps(t, id, t.referrals[id].(review := Passed), ReviewPassed(t, id));
      var mid := Put(t, id, t.referrals[id].(review := Passed)).(reviews := ReviewPassed(t, id));
      RewardKeeps(mid, id, newIds);
      ForwardTwice(t.referrals, mid.referrals, RewardApplied(mid, id, newIds).0.referrals);
    }
  }

  // ---- whole calls ----

  lemma MarkBoundKeeps(t: Tables, invitee: Id, account: Id)
    requires Inv(t)
    ensures Progress(t, MarkedBound(t, invitee, account).0)
    ensures var (t', found) := MarkedBound(t, invitee, account);
            found.Some? ==> found.value in t'.referrals && Between(t'.referrals[found.value], invitee, t.dir.accounts[account].app)
  {
    var (t', found) := MarkedBound(t, invitee, account);
    if found.Some? && t' != t {
      assert RelationshipOk(t.referrals[found.value], t.dir.world.now);
      PutKeeps(t, found.value, t'.referrals[found.value], t.reviews);
    }
  }

  /** A counted row is sound again as soon as the hold it may need is recorded. */
  lemma CountedOk(r: Relationship, message: int, now: int)
    requires RelationshipOk(r, now) && (r.status == Bound || r.status == Qualified) && message !in r.candidates
    ensures var r' := CountedRow(r, message);
            && Forward(r, r') && r'.rewardId == r.rewardId
            && (RelationshipOk(r', now) || (r'.softReview && r'.review == Pending && r'.count >= QUALIFYING_MESSAGES))
            && (r'.review == Pending && r'.count >= QUALIFYING_MESSAGES ==>
                  RelationshipOk(HeldRow(r', now), now) && Forward(r, HeldRow(r', now)))
  {
  }

  /** What the counting step may have made of a row. */
  ghost predicate CountedFrom(r: Relationship, r': Relationship) {
    r' == r || exists m :: m !in r.candidates && (r.status == Bound || r.status == Qualified) && r' == CountedRow(r, m)
  }

  lemma HeldOk(r0: Relationship, r: Relationship, now: int)
    requires RelationshipOk(r0, now) && CountedFrom(r0, r) && r.review == Pending && r.count >= QUALIFYING_MESSAGES
    ensures RelationshipOk(HeldRow(r, now), now) && Forward(r0, HeldRow(r, now)) && r.rewardId == r0.rewardId
  {
    if r != r0 {
      var m :| m !in r0.candidates && (r0.status == Bound || r0.status == Qualified) && r == CountedRow(r0, m);
      CountedOk(r0, m, now);
    }
  }

  lemma HoldStarts(t: Tables, id: Id, r: Relationship)
    requires Inv(t) && id in t.referrals && CountedFrom(t.referrals[id], r)
    requires r.review == Pending && r.count >= QUALIFYING_MESSAGES
    ensures Progress(t, Held(Put(t, id, r), id))
  {
    assert RelationshipOk(t.referrals[id], t.dir.world.now);
    HeldOk(t.referrals[id], r, t.dir.world.now);
    var held := Held(Put(t, id, r), id);
    PutKeeps(t, id, HeldRow(r, t.dir.world.now), held.reviews);
    assert held.referrals == t.referrals[id := HeldRow(r, t.dir.world.now)];
  }

  lemma ConcludeKeeps(t: Tables, id: Id, r: Relationship, newIds: NewIds)
    requires Inv(t) && id in t.referrals && t.referrals[id].rewardId.None? && CountedFrom(t.referrals[id], r)
    requires r.count >= QUALIFYING_MESSAGES
    ensures Progress(t, Concluded(Put(t, id, r), id, newIds).0)
  {
    var counted := Put(t, id, r);
    var end := Concluded(counted, id, newIds).0;
    if r.softReview && r.review == Pending {
      HoldStarts(t, id, r);
      var held := Held(counted, id);
      ReleaseKeeps(held, id, newIds);
      ForwardTwice(t.referrals, held.referrals, end.referrals);
    } else {
      var r0 := t.referrals[id];
      assert RelationshipOk(r0, t.dir.world.now);
      if r != r0 {
        var m :| m !in r0.candidates && (r0.status == Bound || r0.status == Qualified) && r == CountedRow(r0, m);
        CountedOk(r0, m, t.dir.world.now);
      }
      SettleKeeps(t, id, r, newIds);
    }
  }

  lemma SettleKeeps(t: Tables, id: Id, r: Relationship, newIds: NewIds)
    requires Inv(t) && id in t.referrals && t.referrals[id].rewardId.None? && Forward(t.referrals[id], r)
    requires RelationshipOk(r, t.dir.world.now) && r.rewardId.None? && r.count >= QUALIFYING_MESSAGES
    requires !r.softReview || r.review != Pending
    ensures Progress(t, Concluded(Put(t, id, r), id, newIds).0)
  {
    var counted := Put(t, id, r);
    PutKeeps(t, id, r, t.reviews);
    assert counted == counted.(reviews := t.reviews);
    if r.softReview {
      RewardKeeps(counted, id, newIds);
      ForwardTwice(t.referrals, counted.referrals, Concluded(counted, id, newIds).0.referrals);
    } else {
      var t' := if id in t.reviews then counted else counted.(reviews := t.reviews[id := Passed]);
      var passed := r.(status := Qualified, review := Passed);
      PutKeeps(counted, id, passed, t'.reviews);
      if t'.reviews[id] == Passed {
        var ready := Put(t', id, passed);
        assert ready == Put(counted, id, passed).(reviews := t'.reviews);
        RewardKeeps(ready, id, newIds);
        ForwardTwice(t.referrals, counted.referrals, ready.referrals);
        ForwardTwice(t.referrals, ready.referrals, Concluded(counted, id, newIds).0.referrals);
      }
    }
  }

  lemma CountKeeps(t: Tables, id: Id, r: Relationship, newIds: NewIds)
    requires Inv(t) && id in t.referrals && t.referrals[id].rewardId.None? && CountedFrom(t.referrals[id], r)
    ensures r.count < QUALIFYING_MESSAGES ==> Progress(t, Put(t, id, r))
    ensures r.count >= QUALIFYING_MESSAGES ==> Progress(t, Concluded(Put(t, id, r), id, newIds).0)
  {
    if r.count >= QUALIFYING_MESSAGES {
      ConcludeKeeps(t, id, r, newIds);
    } else {
      var r0 := t.referrals[id];
      assert RelationshipOk(r0, t.dir.world.now);
      if r != r0 {
        var m :| m !in r0.candidates && (r0.status == Bound || r0.status == Qualified) && r == CountedRow(r0, m);
        CountedOk(r0, m, t.dir.world.now);
      }
      PutKeeps(t, id, r, t.reviews);
      assert Put(t, id, r) == Put(t, id, r).(reviews := t.reviews);
    }
  }

  /** The tables once the counting step and, if due, the concluding step are done. */
  ghost function CountedAndConcluded(t: Tables, id: Id, account: Id, message: int, newIds: NewIds): Tables
    requires id in t.referrals
  {
    var counted := Counted(t, id, account, message);
    if counted.referrals[id].count < QUALIFYING_MESSAGES then counted else Concluded(counted, id, newIds).0
  }

  lemma CountMessageKeeps(t: Tables, id: Id, account: Id, message: int, newIds: NewIds)
    requires Inv(t) && id in t.referrals && t.referrals[id].rewardId.None?
    ensures Progress(t, CountedAndConcluded(t, id, account, message, newIds))
  {
    var r := Counted(t, id, account, message).referrals[id];
    assert CountedFrom(t.referrals[id], r);
    assert Counted(t, id, account, message) == Put(t, id, r);
    CountKeeps(t, id, r, newIds);
  }

  lemma CountAfterBinding(t: Tables, bound: Tables, id: Id, account: Id, message: int, newIds: NewIds)
    requires Progress(t, bound) && id in bound.referrals && bound.referrals[id].rewardId.None?
    ensures Progress(t, CountedAndConcluded(bound, id, account, message, newIds))
  {
    CountMessageKeeps(bound, id, account, message, newIds);
    ForwardTwice(t.referrals, bound.referrals, CountedAndConcluded(bound, id, account, message, newIds).referrals);
  }

  lemma MessageKeeps(t: Tables, account: Id, message: int, newIds: NewIds)
    requires Inv(t)
    ensures Progress(t, Processed(t, account, message, newIds).0)
  {
    var owner := FirstMessageOwner(t.dir.accounts, t.dir.bindings, account);
    if owner.Some? {
      MarkBoundKeeps(t, owner.value, account);
      var (bound, found) := MarkedBound(t, owner.value, account);
      if found.Some? && bound.referrals[found.value].rewardId.None? {
        CountAfterBinding(t, bound, found.value, account, message, newIds);
      }
    }
  }

  lemma RegisterKeeps(t: Tables, id: Id, inviter: Id, invitee: Id, app: Id)
    requires Inv(t) && RegisteredReferral(t, id, inviter, invitee, app).Ok?
    ensures Progress(t, RegisteredReferral(t, id, inviter, invitee, app).value)
  {
    assert Unfold(0);
    var t' := RegisteredReferral(t, id, inviter, invitee, app).value;
    RegisterBacked(t.book.ledger, t.referrals, id, t'.referrals[id]);
  }

  lemma RegisterBacked(ledger: seq<LedgerRow>, referrals: map<Id, Relationship>, id: Id, r: Relationship)
    requires RewardsBacked(ledger, referrals) && r.rewardId.None?
    ensures RewardsBacked(ledger, referrals[id := r])
  {
    var after := referrals[id := r];
    forall x | x in after && after[x].rewardId.Some? ensures RewardBacked(ledger, x, after[x]) {
      assert RewardBacked(ledger, x, referrals[x]);
    }
  }

  // ---- batches ----

  lemma {:induction false} ReleasedAllKeeps(t: Tables, ids: seq<Id>, newIds: NewIds)
    requires Inv(t)
    ensures Progress(t, ReleasedAll(t, ids, newIds).t)
  {
    if ids != [] {
      var b := ReleasedAll(t, ids[..|ids| - 1], newIds);
      ReleasedAllKeeps(t, ids[..|ids| - 1], newIds);
      if !b.aborted {
        ReleaseKeeps(b.t, ids[|ids| - 1], newIds);
        ForwardTwice(t.referrals, b.t.referrals, ReleasedAll(t, ids, newIds).t.referrals);
      }
    }
  }

  lemma PayableStays(r: Relationship, r': Relationship, now: int)
    requires RelationshipOk(r, now) && RelationshipOk(r', now) && Forward(r, r') && Payable(r, now)
    ensures Payable(r', now)
  {
  }

  lemma {:induction false} RewardedAllKeeps(t: Tables, ids: seq<Id>, newIds: NewIds)
    requires Inv(t) && forall id <- ids :: id in t.referrals && Payable(t.referrals[id], t.dir.world.now)
    ensures Progress(t, RewardedAll(t, ids, newIds).0)
  {
    if ids != [] {
      var (mid, paid) := RewardedAll(t, ids[..|ids| - 1], newIds);
      var id := ids[|ids| - 1];
      assert id in ids && forall x <- ids[..|ids| - 1] :: x in ids;
      RewardedAllKeeps(t, ids[..|ids| - 1], newIds);
      if paid.Ok? {
        assert RelationshipOk(t.referrals[id], t.dir.world.now) && RelationshipOk(mid.referrals[id], t.dir.world.now);
        assert Forward(t.referrals[id], mid.referrals[id]);
        PayableStays(t.referrals[id], mid.referrals[id], t.dir.world.now);
        RewardKeeps(mid, id, newIds);
        ForwardTwice(t.referrals, mid.referrals, RewardApplied(mid, id, newIds).0.referrals);
      }
    }
  }

  lemma {:induction false} SelectedDue(referrals: map<Id, Relationship>, order: seq<Id>, inviter: Option<Id>, app: Id, review: Review)
    ensures forall id <- Select(referrals, order, inviter, app, review) ::
              id in referrals && DueFor(referrals[id], inviter, app, review)
  {
    if order != [] {
      SelectedDue(referrals, order[..|order| - 1], inviter, app, review);
    }
  }

  lemma RetryKeeps(t: Tables, order: seq<Id>, inviter: Id, app: Id, newIds: NewIds)
    requires Inv(t)
    ensures Progress(t, Retried(t, order, inviter, app, newIds).0)
  {
    var due := Limited(Select(t.referrals, order, Some(inviter), app, Pending), 100);
    var b := ReleasedAll(t, due, newIds);
    ReleasedAllKeeps(t, due, newIds);
    if !b.aborted {
      var ids := Select(b.t.referrals, order, Some(inviter), app, Passed);
      SelectedDue(b.t.referrals, order, Some(inviter), app, Passed);
      forall id <- ids ensures Payable(b.t.referrals[id], t.dir.world.now) {
        assert RelationshipOk(b.t.referrals[id], t.dir.world.now);
      }
      RewardedAllKeeps(b.t, ids, newIds);
      ForwardTwice(t.referrals, b.t.referrals, RewardedAll(b.t, ids, newIds).0.referrals);
    }
  }
}
