/** Which messages count towards a referral: on one call, and over a run. */
module MessageCounting {
  import opened Wrappers
  import opened Ledger
  import opened Tables
  import opened Billing
  import opened BillingRuns
  import opened Referral
  import opened ReferralRuns
  import opened Wipe
  import opened WipeAudit
  import opened Runs

  // ---- whose message it is ----

  /** The i-th binding is the first active one of the account in the account's own product. */
  predicate EarliestInApp(accounts: map<Id, Account>, bindings: seq<Binding>, account: Id, user: Id, i: nat)
    requires i < |bindings|
  {
    && account in accounts
    && bindings[i].account == account && bindings[i].active && bindings[i].app == accounts[account].app && bindings[i].user == user
    && forall j :: 0 <= j < i ==> !(bindings[j].account == account && bindings[j].active && bindings[j].app == accounts[account].app)
  }

  /** The account's messages are attributed to the user of its earliest active binding. */
  ghost predicate SpeaksAs(t: Tables, account: Id, user: Id) {
    exists i: nat :: i < |t.dir.bindings| && EarliestInApp(t.dir.accounts, t.dir.bindings, account, user, i)
  }

  lemma {:induction false} MessageOwnerAt(accounts: map<Id, Account>, bindings: seq<Binding>, account: Id) returns (i: nat)
    requires FirstMessageOwner(accounts, bindings, account).Some?
    ensures i < |bindings| && EarliestInApp(accounts, bindings, account, FirstMessageOwner(accounts, bindings, account).value, i)
  {
    var (b, rest) := (bindings[0], bindings[1..]);
    if b.account == account && b.active && account in accounts && b.app == accounts[account].app {
      i := 0;
    } else {
      var k := MessageOwnerAt(accounts, rest, account);
      i := k + 1;
    }
  }

  lemma {:induction false} MessageOwnerIs(accounts: map<Id, Account>, bindings: seq<Binding>, account: Id, user: Id, i: nat)
    requires i < |bindings| && EarliestInApp(accounts, bindings, account, user, i)
    ensures FirstMessageOwner(accounts, bindings, account) == Some(user)
  {
    if i > 0 {
      assert EarliestInApp(accounts, bindings[1..], account, user, i - 1);
      MessageOwnerIs(accounts, bindings[1..], account, user, i - 1);
    }
  }

  lemma SpeaksAsIs(t: Tables, account: Id, user: Id)
    ensures SpeaksAs(t, account, user) <==> FirstMessageOwner(t.dir.accounts, t.dir.bindings, account) == Some(user)
  {
    if SpeaksAs(t, account, user) {
      var i: nat :| i < |t.dir.bindings| && EarliestInApp(t.dir.accounts, t.dir.bindings, account, user, i);
      MessageOwnerIs(t.dir.accounts, t.dir.bindings, account, user, i);
    }
    if FirstMessageOwner(t.dir.accounts, t.dir.bindings, account) == Some(user) {
      var i := MessageOwnerAt(t.dir.accounts, t.dir.bindings, account);
      assert EarliestInApp(t.dir.accounts, t.dir.bindings, account, user, i);
    }
  }

  // ---- what counts, on one call ----

  /** The message is a meaningful one that the user of this account sent in. */
  predicate MeaningfulFrom(t: Tables, account: Id, message: int) {
    var messages := t.dir.world.messages;
    && message in messages && messages[message].account == account && messages[message].inbound
    && messages[message].fromUser && messages[message].meaningful
  }

  /** The call counts the message for the relationship. */
  ghost predicate CountsFor(t: Tables, id: Id, account: Id, message: int, newIds: NewIds) {
    && id in t.referrals && account in t.dir.accounts
    && var (r, app) := (t.referrals[id], t.dir.accounts[account].app);
       && SpeaksAs(t, account, r.invitee) && r.app == app && app in t.dir.world.enabled
       && (r.invitee, app) in t.dir.world.members && r.status != Rewarded && r.rewardId.None?
       && MeaningfulFrom(t, account, message) && message !in r.candidates
       && Processed(t, account, message, newIds).1.Ok?
  }

  predicate SameList(r: Relationship, r': Relationship) { r'.candidates == r.candidates }

  ghost predicate SameCandidates(before: map<Id, Relationship>, after: map<Id, Relationship>) {
    && after.Keys == before.Keys
    && forall x {:trigger SameList(before[x], after[x])} :: x in before ==> SameList(before[x], after[x])
  }

  lemma SameTwice(a: map<Id, Relationship>, b: map<Id, Relationship>, c: map<Id, Relationship>)
    requires SameCandidates(a, b) && SameCandidates(b, c)
    ensures SameCandidates(a, c)
  {
    forall x | x in a ensures SameList(a[x], c[x]) {
      assert SameList(a[x], b[x]) && SameList(b[x], c[x]);
    }
  }

  lemma PutSame(t: Tables, id: Id, r: Relationship)
    requires id in t.referrals && r.candidates == t.referrals[id].candidates
    ensures SameCandidates(t.referrals, t.referrals[id := r])
  {
  }

  lemma RewardCountsNothing(t: Tables, id: Id, newIds: NewIds)
    ensures SameCandidates(t.referrals, RewardApplied(t, id, newIds).0.referrals)
  {
  }

  lemma ReleaseCountsNothing(t: Tables, id: Id, newIds: NewIds)
    ensures SameCandidates(t.referrals, DelayedReleased(t, id, newIds).0.referrals)
  {
    if id in t.referrals && HoldElapsed(t.referrals[id], t.dir.world.now) {
      var passed := t.referrals[id].(review := Passed);
      var mid := Put(t, id, passed).(reviews := ReviewPassed(t, id));
      PutSame(t, id, passed);
      RewardCountsNothing(mid, id, newIds);
      SameTwice(t.referrals, mid.referrals, DelayedReleased(t, id, newIds).0.referrals);
    }
  }

  lemma HeldCountsNothing(t: Tables, id: Id, newIds: NewIds)
    requires id in t.referrals
    ensures SameCandidates(t.referrals, DelayedReleased(Held(t, id), id, newIds).0.referrals)
  {
    var held := Held(t, id);
    PutSame(t, id, HeldRow(t.referrals[id], t.dir.world.now));
    ReleaseCountsNothing(held, id, newIds);
    SameTwice(t.referrals, held.referrals, DelayedReleased(held, id, newIds).0.referrals);
  }

  lemma ConcludeCountsNothing(t: Tables, id: Id, newIds: NewIds)
    requires id in t.referrals
    ensures SameCandidates(t.referrals, Concluded(t, id, newIds).0.referrals)
  {
    var r := t.referrals[id];
    if r.softReview {
      match r.review
      case Passed => RewardCountsNothing(t, id, newIds);
      case Pending => HeldCountsNothing(t, id, newIds);
      case Failed =>
    } else {
      var t' := if id in t.reviews then t else t.(reviews := t.reviews[id := Passed]);
      if t'.reviews[id] == Passed {
        var passed := r.(status := Qualified, review := Passed);
        PutSame(t, id, passed);
        RewardCountsNothing(Put(t', id, passed), id, newIds);
        SameTwice(t.referrals, Put(t', id, passed).referrals, Concluded(t, id, newIds).0.referrals);
      }
    }
  }

  lemma CountedOnce(t: Tables, id: Id, account: Id, message: int)
    requires id in t.referrals
    ensures var t' := Counted(t, id, account, message);
            && t'.referrals.Keys == t.referrals.Keys
            && (forall x <- t.referrals :: x != id ==> t'.referrals[x] == t.referrals[x])
            && t'.referrals[id].candidates
               == t.referrals[id].candidates
                  + if MeaningfulFrom(t, account, message) && message !in t.referrals[id].candidates
                       && (t.referrals[id].status == Bound || t.referrals[id].status == Qualified)
                    then [message] else []
  {
  }

  /** The counting step and what follows it append the message, or nothing, to the one relationship. */
  lemma ConcludedOnce(t: Tables, id: Id, account: Id, message: int, newIds: NewIds)
    requires id in t.referrals
    ensures var after := CountedAndConcluded(t, id, account, message, newIds).referrals;
            && after.Keys == t.referrals.Keys
            && (forall x <- t.referrals :: x != id ==> SameList(t.referrals[x], after[x]))
            && after[id].candidates
               == t.referrals[id].candidates
                  + if MeaningfulFrom(t, account, message) && message !in t.referrals[id].candidates
                       && (t.referrals[id].status == Bound || t.referrals[id].status == Qualified)
                    then [message] else []
  {
    var counted := Counted(t, id, account, message);
    CountedOnce(t, id, account, message);
    if counted.referrals[id].count >= QUALIFYING_MESSAGES {
      var after := Concluded(counted, id, newIds).0.referrals;
      ConcludeCountsNothing(counted, id, newIds);
      forall x | x in t.referrals && x != id ensures SameList(t.referrals[x], after[x]) {
        assert SameList(counted.referrals[x], after[x]);
      }
      assert SameList(counted.referrals[id], after[id]);
    }
  }

  lemma BoundFound(t: Tables, invitee: Id, account: Id, id: Id)
    requires OneReferralEach(t.referrals) && id in t.referrals && account in t.dir.accounts
    ensures MarkedBound(t, invitee, account).1 == Some(id) <==>
              && t.referrals[id].invitee == invitee && t.referrals[id].app == t.dir.accounts[account].app
              && (invitee, t.dir.accounts[account].app) in t.dir.world.members
  {
    if t.referrals[id].invitee == invitee && t.referrals[id].app == t.dir.accounts[account].app {
      assert Between(t.referrals[id], invitee, t.dir.accounts[account].app);
    }
  }

  lemma BoundSame(t: Tables, invitee: Id, account: Id)
    ensures var (bound, found) := MarkedBound(t, invitee, account);
            && SameCandidates(t.referrals, bound.referrals) && bound.dir == t.dir
            && (found.Some? ==>
                 && found.value in t.referrals
                 && bound.referrals[found.value].rewardId == t.referrals[found.value].rewardId
                 && (bound.referrals[found.value].status == Bound || bound.referrals[found.value].status == Qualified
                     <==> t.referrals[found.value].status != Rewarded))
  {
  }

  lemma ProcessedIs(t: Tables, account: Id, message: int, newIds: NewIds, invitee: Id)
    requires FirstMessageOwner(t.dir.accounts, t.dir.bindings, account) == Some(invitee)
    ensures var (bound, found) := MarkedBound(t, invitee, account);
            var (t', r) := Processed(t, account, message, newIds);
            && account in t.dir.accounts
            && (r.Err? || t.dir.accounts[account].app in t.dir.world.enabled)
            && (r.Ok? ==> t' == if found.None? || bound.referrals[found.value].rewardId.Some? then bound
                                else CountedAndConcluded(bound, found.value, account, message, newIds))
            && (r.Err? ==> t' == t)
  {
  }

  lemma ProcessedKeys(t: Tables, account: Id, message: int, newIds: NewIds)
    ensures Processed(t, account, message, newIds).0.referrals.Keys == t.referrals.Keys
  {
    var owner := FirstMessageOwner(t.dir.accounts, t.dir.bindings, account);
    if owner.Some? {
      ProcessedIs(t, account, message, newIds, owner.value);
      BoundSame(t, owner.value, account);
      var (bound, found) := MarkedBound(t, owner.value, account);
      if found.Some? {
        ConcludedOnce(bound, found.value, account, message, newIds);
      }
    }
  }

  /** A message call appends to a relationship's candidates exactly when it is the invitee's own meaningful
      message, not yet counted, in the relationship's product, before any reward, and the call succeeds;
      and then it appends exactly that message. Every other relationship's candidates stay. */
  lemma MessageCounts(t: Tables, account: Id, message: int, newIds: NewIds, id: Id)
    requires OneReferralEach(t.referrals) && id in t.referrals
    ensures id in Processed(t, account, message, newIds).0.referrals
    ensures Processed(t, account, message, newIds).0.referrals[id].candidates
         == t.referrals[id].candidates + if CountsFor(t, id, account, message, newIds) then [message] else []
  {
    ProcessedKeys(t, account, message, newIds);
    SpeaksAsIs(t, account, t.referrals[id].invitee);
    assert t.referrals[id].candidates + [] == t.referrals[id].candidates;
    var owner := FirstMessageOwner(t.dir.accounts, t.dir.bindings, account);
    if owner.Some? {
      ProcessedIs(t, account, message, newIds, owner.value);
      OwnedMessageCounts(t, account, message, newIds, id, owner.value);
    }
  }

  lemma OwnedMessageCounts(t: Tables, account: Id, message: int, newIds: NewIds, id: Id, invitee: Id)
    requires OneReferralEach(t.referrals) && id in t.referrals
    requires FirstMessageOwner(t.dir.accounts, t.dir.bindings, account) == Some(invitee)
    requires SpeaksAs(t, account, t.referrals[id].invitee) <==> t.referrals[id].invitee == invitee
    ensures id in Processed(t, account, message, newIds).0.referrals
    ensures Processed(t, account, message, newIds).0.referrals[id].candidates
         == t.referrals[id].candidates + if CountsFor(t, id, account, message, newIds) then [message] else []
  {
    ProcessedIs(t, account, message, newIds, invitee);
    BoundFound(t, invitee, account, id);
    BoundSame(t, invitee, account);
    var (bound, found) := MarkedBound(t, invitee, account);
    assert SameList(t.referrals[id], bound.referrals[id]);
    assert t.referrals[id].candidates + [] == t.referrals[id].candidates;
    if Processed(t, account, message, newIds).1.Ok? && found.Some? && bound.referrals[found.value].rewardId.None? {
      ConcludedOnce(bound, found.value, account, message, newIds);
      assert id != found.value ==>
        SameList(bound.referrals[id], CountedAndConcluded(bound, found.value, account, message, newIds).referrals[id]);
    }
  }

  // ---- no other call counts anything ----

  lemma {:induction false} ReleasedAllCountsNothing(t: Tables, ids: seq<Id>, newIds: NewIds)
    ensures SameCandidates(t.referrals, ReleasedAll(t, ids, newIds).t.referrals)
  {
    if ids != [] {
      var b := ReleasedAll(t, ids[..|ids| - 1], newIds);
      ReleasedAllCountsNothing(t, ids[..|ids| - 1], newIds);
      if !b.aborted {
        ReleaseCountsNothing(b.t, ids[|ids| - 1], newIds);
        SameTwice(t.referrals, b.t.referrals, ReleasedAll(t, ids, newIds).t.referrals);
      }
    }
  }

  lemma {:induction false} RewardedAllCountsNothing(t: Tables, ids: seq<Id>, newIds: NewIds)
    ensures SameCandidates(t.referrals, RewardedAll(t, ids, newIds).0.referrals)
  {
    if ids != [] {
      var (mid, paid) := RewardedAll(t, ids[..|ids| - 1], newIds);
      RewardedAllCountsNothing(t, ids[..|ids| - 1], newIds);
      if paid.Ok? {
        RewardCountsNothing(mid, ids[|ids| - 1], newIds);
        SameTwice(t.referrals, mid.referrals, RewardedAll(t, ids, newIds).0.referrals);
      }
    }
  }

  lemma RetryCountsNothing(t: Tables, order: seq<Id>, inviter: Id, app: Id, newIds: NewIds)
    ensures SameCandidates(t.referrals, Retried(t, order, inviter, app, newIds).0.referrals)
  {
    var due := Limited(Select(t.referrals, order, Some(inviter), app, Pending), 100);
    ReleasedAllCountsNothing(t, due, newIds);
    var b := ReleasedAll(t, due, newIds);
    if !b.aborted {
      var ids := Select(b.t.referrals, order, Some(inviter), app, Passed);
      RewardedAllCountsNothing(b.t, ids, newIds);
      SameTwice(t.referrals, b.t.referrals, RewardedAll(b.t, ids, newIds).0.referrals);
    }
  }

  lemma DueCountsNothing(t: Tables, order: seq<Id>, inviter: Option<Id>, app: Id, limit: nat, newIds: NewIds)
    ensures SameCandidates(t.referrals, DueReleased(t, order, inviter, app, limit, newIds).0.referrals)
  {
    ReleasedAllCountsNothing(t, Limited(Select(t.referrals, order, inviter, app, Pending), limit), newIds);
  }

  /** An action other than a message leaves every candidate list alone; a new relationship has none. */
  lemma OthersCountNothing(t: Tables, a: Action, id: Id)
    requires !a.Message? && id in Runs.After(t, a).referrals
    ensures Runs.After(t, a).referrals[id].candidates == if id in t.referrals then t.referrals[id].candidates else []
  {
    match a
    case Bill(op) => BillSameReferrals(t, op);
    case Register(newId, inviter, invitee, app) =>
      if RegisteredReferral(t, newId, inviter, invitee, app).Ok? { RegisterCountsNothing(t, newId, inviter, invitee, app, id); }
    case Bind(user, account) =>
      BoundSame(t, user, account);
      assert SameList(t.referrals[id], MarkedBound(t, user, account).0.referrals[id]);
    case ReleaseDue(order, inviter, app, limit, newIds) =>
      DueCountsNothing(t, order, inviter, app, limit, newIds);
      assert SameList(t.referrals[id], DueReleased(t, order, inviter, app, limit, newIds).0.referrals[id]);
    case Retry(order, inviter, app, newIds) =>
      RetryCountsNothing(t, order, inviter, app, newIds);
      assert SameList(t.referrals[id], Retried(t, order, inviter, app, newIds).0.referrals[id]);
    case WipeAccount(_) =>
    case ChangeDirectory(_) =>
  }

  lemma RegisterCountsNothing(t: Tables, newId: Id, inviter: Id, invitee: Id, app: Id, id: Id)
    requires RegisteredReferral(t, newId, inviter, invitee, app).Ok? && id in RegisteredReferral(t, newId, inviter, invitee, app).value.referrals
    ensures RegisteredReferral(t, newId, inviter, invitee, app).value.referrals[id].candidates
         == if id in t.referrals then t.referrals[id].candidates else []
  {
  }

  lemma BillSameReferrals(t: Tables, op: Op)
    ensures BillingRuns.Step(t, op).referrals == t.referrals
  {
  }

  // ---- over a run ----

  /** The run has, at its k-th step, a message call that counts this message for the relationship: a
      meaningful one, of an account that speaks as the invitee then. */
  ghost predicate CountedAt(t: Tables, run: seq<Action>, id: Id, message: int, k: nat) {
    && k < |run| && run[k].Message? && run[k].message == message
    && CountsFor(Runs.Run(t, run[..k]), id, run[k].account, message, run[k].newIds)
  }

  /** One step: a candidate after it was one before, or the step is a message call that counts it. */
  lemma StepCandidates(t: Tables, a: Action, id: Id, message: int)
    requires OneReferralEach(t.referrals)
    requires id in Runs.After(t, a).referrals && message in Runs.After(t, a).referrals[id].candidates
    ensures (id in t.referrals && message in t.referrals[id].candidates)
            || (a.Message? && a.message == message && CountsFor(t, id, a.account, message, a.newIds))
  {
    if a.Message? {
      ProcessedKeys(t, a.account, a.message, a.newIds);
      MessageCounts(t, a.account, a.message, a.newIds, id);
    } else {
      OthersCountNothing(t, a, id);
    }
  }

  /** Every candidate was there at the start, or is a meaningful inbound message of the invitee that some
      call of the run counted: nothing else ever qualifies a relationship. */
  lemma {:induction false} CandidatesAreMeaningful(t: Tables, run: seq<Action>, homes: Homes, id: Id, message: int)
    requires Good(t, homes) && PossibleRun(t, run, homes)
    requires id in Runs.Run(t, run).referrals && message in Runs.Run(t, run).referrals[id].candidates
    ensures (id in t.referrals && message in t.referrals[id].candidates) || exists k: nat :: CountedAt(t, run, id, message, k)
  {
    if run != [] {
      var (pre, a) := (run[..|run| - 1], run[|run| - 1]);
      var mid := Runs.Run(t, pre);
      Runs.RunKeeps(t, pre, homes);
      assert OneReferralEach(mid.referrals) by { assert Unfold(0); }
      StepCandidates(mid, a, id, message);
      if id in mid.referrals && message in mid.referrals[id].candidates {
        CandidatesAreMeaningful(t, pre, homes, id, message);
        if k: nat :| CountedAt(t, pre, id, message, k) {
          assert run[..k] == pre[..k] && run[k] == pre[k];
          assert CountedAt(t, run, id, message, k);
        }
      } else {
        assert CountedAt(t, run, id, message, |pre|);
      }
    }
  }
}
