/** The review table: over every run it holds exactly the relationships that have qualified, each with the
    review its relationship carries. */
module ReviewRuns {
  import opened Wrappers
  import opened Ledger
  import opened Tables
  import opened Billing
  import opened BillingRuns
  import opened Referral
  import opened ReferralRuns
  import opened Wipe
  import opened Runs

  predicate ReviewOk(r: Relationship, known: bool, review: Review) {
    (known <==> r.status == Qualified || r.status == Rewarded) && (known ==> review == r.review)
  }

  predicate RowOk(t: Tables, id: Id)
    requires id in t.referrals
  {
    ReviewOk(t.referrals[id], id in t.reviews, if id in t.reviews then t.reviews[id] else Pending)
  }

  ghost predicate OthersOk(t: Tables, except: Option<Id>) {
    && t.reviews.Keys <= t.referrals.Keys
    && forall id {:trigger RowOk(t, id)} :: id in t.referrals && Some(id) != except ==> RowOk(t, id)
  }

  ghost predicate ReviewsOk(t: Tables) { OthersOk(t, None) }

  lemma PutReview(t: Tables, id: Id, r: Relationship, reviews: map<Id, Review>)
    requires OthersOk(t, Some(id)) && id in t.referrals && reviews.Keys <= t.reviews.Keys + {id}
    requires forall x <- t.reviews :: x != id ==> x in reviews && reviews[x] == t.reviews[x]
    requires ReviewOk(r, id in reviews, if id in reviews then reviews[id] else Pending)
    ensures ReviewsOk(Put(t, id, r).(reviews := reviews))
  {
    var t' := Put(t, id, r).(reviews := reviews);
    forall x | x in t'.referrals ensures RowOk(t', x) {
      assert x != id ==> RowOk(t, x);
    }
  }

  lemma Weaken(t: Tables, id: Id)
    requires ReviewsOk(t)
    ensures OthersOk(t, Some(id))
  {
    forall x | x in t.referrals && Some(x) != Some(id) ensures RowOk(t, x) {
      assert Some(x) != None;
    }
  }

  lemma RewardReviews(t: Tables, id: Id, newIds: NewIds)
    requires ReviewsOk(t)
    requires id in t.referrals && t.referrals[id].rewardId.None? ==> t.referrals[id].review == Passed && id in t.reviews
    ensures ReviewsOk(RewardApplied(t, id, newIds).0)
  {
    var t' := RewardApplied(t, id, newIds).0;
    if id in t.referrals && t' != t {
      assert RowOk(t, id);
      Weaken(t, id);
      PutReview(t, id, t'.referrals[id], t.reviews);
      forall x | x in t'.referrals ensures RowOk(t', x) {
        assert RowOk(Put(t, id, t'.referrals[id]).(reviews := t.reviews), x);
      }
    }
  }

  lemma ReleaseReviews(t: Tables, id: Id, newIds: NewIds)
    requires ReviewsOk(t)
    ensures ReviewsOk(DelayedReleased(t, id, newIds).0)
  {
    if id in t.referrals && HoldElapsed(t.referrals[id], t.dir.world.now) {
      assert RowOk(t, id);
      Weaken(t, id);
      PutReview(t, id, t.referrals[id].(review := Passed), ReviewPassed(t, id));
      RewardReviews(Put(t, id, t.referrals[id].(review := Passed)).(reviews := ReviewPassed(t, id)), id, newIds);
    }
  }

  /** Just before the conclusion only the counted row may lack its review. */
  ghost predicate Counting(t: Tables, id: Id) {
    && OthersOk(t, Some(id)) && id in t.referrals && t.referrals[id].status == Qualified && t.referrals[id].review != Failed
    && (id in t.reviews ==> t.reviews[id] == t.referrals[id].review)
    && (t.referrals[id].review == Passed ==> id in t.reviews)
  }

  lemma ConcludeReviews(t: Tables, id: Id, newIds: NewIds)
    requires Counting(t, id)
    ensures ReviewsOk(Concluded(t, id, newIds).0)
  {
    var r := t.referrals[id];
    if r.softReview {
      if r.review == Passed {
        PutReview(t, id, r, t.reviews);
        assert Put(t, id, r).(reviews := t.reviews) == t;
        RewardReviews(t, id, newIds);
      } else {
        var held := Held(t, id);
        PutReview(t, id, HeldRow(r, t.dir.world.now), held.reviews);
        assert held == Put(t, id, HeldRow(r, t.dir.world.now)).(reviews := held.reviews);
        ReleaseReviews(held, id, newIds);
      }
    } else {
      var reviews := if id in t.reviews then t.reviews else t.reviews[id := Passed];
      var t' := if id in t.reviews then t else t.(reviews := t.reviews[id := Passed]);
      if reviews[id] == Passed {
        var passed := r.(status := Qualified, review := Passed);
        PutReview(t, id, passed, reviews);
        assert Put(t', id, passed) == Put(t, id, passed).(reviews := reviews);
        RewardReviews(Put(t', id, passed), id, newIds);
      } else {
        PutReview(t, id, r, t.reviews);
        assert Put(t, id, r).(reviews := t.reviews) == t;
      }
    }
  }

  lemma CountReviews(t: Tables, id: Id, account: Id, message: int, newIds: NewIds)
    requires ReviewsOk(t) && id in t.referrals && RelationshipOk(t.referrals[id], t.dir.world.now) && t.referrals[id].rewardId.None?
    ensures ReviewsOk(CountedAndConcluded(t, id, account, message, newIds))
  {
    assert RowOk(t, id);
    Weaken(t, id);
    var counted := Counted(t, id, account, message);
    var r := counted.referrals[id];
    assert counted == Put(t, id, r).(reviews := t.reviews);
    if r.count < QUALIFYING_MESSAGES {
      PutReview(t, id, r, t.reviews);
    } else {
      forall x | x in counted.referrals && Some(x) != Some(id) ensures RowOk(counted, x) {
        assert RowOk(t, x);
      }
      CountedStatus(t.referrals[id], r);
      ConcludeReviews(counted, id, newIds);
    }
  }

  /** What counting can have made of a row whose count has reached three. */
  lemma CountedStatus(r0: Relationship, r: Relationship)
    requires r0.rewardId.None? && exists now :: RelationshipOk(r0, now)
    requires (r == r0 || exists m :: r == CountedRow(r0, m) && (r0.status == Bound || r0.status == Qualified)) && r.count >= QUALIFYING_MESSAGES
    ensures r.review == r0.review && r.review != Failed && (r != r0 ==> r.status == Qualified)
  {
  }

  lemma BoundReviews(t: Tables, invitee: Id, account: Id)
    requires ReviewsOk(t)
    ensures ReviewsOk(MarkedBound(t, invitee, account).0)
  {
    var (t', found) := MarkedBound(t, invitee, account);
    if t' != t {
      assert RowOk(t, found.value);
      Weaken(t, found.value);
      PutReview(t, found.value, t'.referrals[found.value], t.reviews);
      assert t' == Put(t, found.value, t'.referrals[found.value]).(reviews := t.reviews);
    }
  }

  lemma MessageReviews(t: Tables, account: Id, message: int, newIds: NewIds)
    requires Inv(t) && ReviewsOk(t)
    ensures ReviewsOk(Processed(t, account, message, newIds).0)
  {
    var owner := FirstMessageOwner(t.dir.accounts, t.dir.bindings, account);
    if owner.Some? && Processed(t, account, message, newIds).1.Ok? {
      MarkBoundKeeps(t, owner.value, account);
      BoundReviews(t, owner.value, account);
      var (bound, found) := MarkedBound(t, owner.value, account);
      if found.Some? && bound.referrals[found.value].rewardId.None? {
        assert RelationshipOk(bound.referrals[found.value], bound.dir.world.now);
        CountReviews(bound, found.value, account, message, newIds);
      }
    }
  }

  lemma RegisterReviews(t: Tables, id: Id, inviter: Id, invitee: Id, app: Id)
    requires ReviewsOk(t) && RegisteredReferral(t, id, inviter, invitee, app).Ok?
    ensures ReviewsOk(RegisteredReferral(t, id, inviter, invitee, app).value)
  {
    var t' := RegisteredReferral(t, id, inviter, invitee, app).value;
    forall x | x in t'.referrals ensures RowOk(t', x) {
      assert x != id ==> RowOk(t, x);
    }
  }

  lemma {:induction false} ReleasedAllReviews(t: Tables, ids: seq<Id>, newIds: NewIds)
    requires ReviewsOk(t)
    ensures ReviewsOk(ReleasedAll(t, ids, newIds).t)
  {
    if ids != [] {
      var b := ReleasedAll(t, ids[..|ids| - 1], newIds);
      ReleasedAllReviews(t, ids[..|ids| - 1], newIds);
      if !b.aborted {
        ReleaseReviews(b.t, ids[|ids| - 1], newIds);
      }
    }
  }

  lemma RewardPassed(t: Tables, id: Id, newIds: NewIds, x: Id)
    requires x in t.referrals && t.referrals[x].review == Passed
    ensures x in RewardApplied(t, id, newIds).0.referrals && RewardApplied(t, id, newIds).0.referrals[x].review == Passed
    ensures RewardApplied(t, id, newIds).0.reviews == t.reviews
  {
  }

  lemma {:induction false} RewardedAllReviews(t: Tables, ids: seq<Id>, newIds: NewIds)
    requires ReviewsOk(t) && forall x <- ids :: x in t.referrals && t.referrals[x].review == Passed && x in t.reviews
    ensures ReviewsOk(RewardedAll(t, ids, newIds).0) && RewardedAll(t, ids, newIds).0.reviews == t.reviews
    ensures forall x <- t.referrals :: t.referrals[x].review == Passed ==>
              x in RewardedAll(t, ids, newIds).0.referrals && RewardedAll(t, ids, newIds).0.referrals[x].review == Passed
  {
    if ids != [] {
      var (mid, paid) := RewardedAll(t, ids[..|ids| - 1], newIds);
      var id := ids[|ids| - 1];
      assert id in ids && forall x <- ids[..|ids| - 1] :: x in ids;
      RewardedAllReviews(t, ids[..|ids| - 1], newIds);
      if paid.Ok? {
        RewardReviews(mid, id, newIds);
        forall x | x in mid.referrals && mid.referrals[x].review == Passed
          ensures x in RewardApplied(mid, id, newIds).0.referrals && RewardApplied(mid, id, newIds).0.referrals[x].review == Passed
        {
          RewardPassed(mid, id, newIds, x);
        }
        RewardPassed(mid, id, newIds, id);
      }
    }
  }

  lemma RetryReviews(t: Tables, order: seq<Id>, inviter: Id, app: Id, newIds: NewIds)
    requires ReviewsOk(t)
    ensures ReviewsOk(Retried(t, order, inviter, app, newIds).0)
  {
    var due := Limited(Select(t.referrals, order, Some(inviter), app, Pending), 100);
    var b := ReleasedAll(t, due, newIds);
    ReleasedAllReviews(t, due, newIds);
    if !b.aborted {
      var ids := Select(b.t.referrals, order, Some(inviter), app, Passed);
      SelectedDue(b.t.referrals, order, Some(inviter), app, Passed);
      forall x <- ids ensures x in b.t.referrals && b.t.referrals[x].review == Passed && x in b.t.reviews {
        assert RowOk(b.t, x);
      }
      RewardedAllReviews(b.t, ids, newIds);
    }
  }

  lemma SameReviews(t: Tables, t': Tables)
    requires ReviewsOk(t) && t'.referrals == t.referrals && t'.reviews == t.reviews
    ensures ReviewsOk(t')
  {
    forall x | x in t'.referrals ensures RowOk(t', x) {
      assert RowOk(t, x);
    }
  }

  lemma BillReviews(t: Tables, op: Op)
    ensures BillingRuns.Step(t, op).referrals == t.referrals && BillingRuns.Step(t, op).reviews == t.reviews
  {
  }

  lemma ActionReviews(t: Tables, a: Action, homes: Homes)
    requires Good(t, homes) && ReviewsOk(t) && Possible(t, a, homes)
    ensures ReviewsOk(Runs.After(t, a))
  {
    match a
    case Bill(op) =>
      BillReviews(t, op);
      SameReviews(t, BillingRuns.Step(t, op));
    case Register(id, inviter, invitee, app) =>
      if RegisteredReferral(t, id, inviter, invitee, app).Ok? { RegisterReviews(t, id, inviter, invitee, app); }
    case Bind(user, account) => BoundReviews(t, user, account);
    case Message(account, message, newIds) => MessageReviews(t, account, message, newIds);
    case ReleaseDue(order, inviter, app, limit, newIds) =>
      ReleasedAllReviews(t, Limited(Select(t.referrals, order, inviter, app, Pending), limit), newIds);
    case Retry(order, inviter, app, newIds) => RetryReviews(t, order, inviter, app, newIds);
    case WipeAccount(account) => if account in t.dir.accounts { SameReviews(t, Wiped(t, account)); }
    case ChangeDirectory(dir) => SameReviews(t, t.(dir := dir));
  }

  /** Over every run the review table holds exactly the relationships that are qualified or rewarded, each
      with the review its relationship carries. */
  lemma {:induction false} ReviewsOverRuns(t: Tables, run: seq<Action>, homes: Homes)
    requires Good(t, homes) && ReviewsOk(t) && PossibleRun(t, run, homes)
    ensures var t' := Runs.Run(t, run);
            && ReviewsOk(t')
            && (forall id :: id in t'.reviews <==>
                  id in t'.referrals && (t'.referrals[id].status == Qualified || t'.referrals[id].status == Rewarded))
            && forall id <- t'.reviews :: t'.reviews[id] == t'.referrals[id].review
  {
    if run != [] {
      Runs.RunKeeps(t, run[..|run| - 1], homes);
      ReviewsOverRuns(t, run[..|run| - 1], homes);
      ActionReviews(Runs.Run(t, run[..|run| - 1]), run[|run| - 1], homes);
    }
    var t' := Runs.Run(t, run);
    forall id | id in t'.referrals ensures RowOk(t', id) {
    }
  }
}
