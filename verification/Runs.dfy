/** Runs that mix billing, referral and wipe calls with clock ticks and directory changes: one invariant
    over all tables, and what it says about referrals over a whole run. */
module Runs {
  import opened Wrappers
  import opened Text
  import opened Ledger
  import opened Tables
  import opened Billing
  import opened BillingRuns
  import opened Referral
  import opened ReferralRuns
  import opened Wipe
  import opened WipeAudit

  datatype Action =
    | Bill(op: Op)
    | Register(id: Id, inviter: Id, invitee: Id, app: Id)
    | Bind(user: Id, account: Id)
    | Message(account: Id, message: int, newIds: NewIds)
    | ReleaseDue(order: seq<Id>, inviterOnly: Option<Id>, dueApp: Id, limit: nat, newIds: NewIds)
    | Retry(order: seq<Id>, retrier: Id, retryApp: Id, newIds: NewIds)
    | WipeAccount(account: Id)
    | ChangeDirectory(dir: Directory)

  ghost function After(t: Tables, a: Action): Tables {
    match a
    case Bill(op) => BillingRuns.Step(t, op)
    case Register(id, inviter, invitee, app) =>
      var r := RegisteredReferral(t, id, inviter, invitee, app);
      if r.Ok? then r.value else t
    case Bind(user, account) => MarkedBound(t, user, account).0
    case Message(account, message, newIds) => Processed(t, account, message, newIds).0
    case ReleaseDue(order, inviter, app, limit, newIds) => DueReleased(t, order, inviter, app, limit, newIds).0
    case Retry(order, inviter, app, newIds) => Retried(t, order, inviter, app, newIds).0
    case WipeAccount(account) => if account in t.dir.accounts then Wiped(t, account) else t
    case ChangeDirectory(dir) => t.(dir := dir)
  }

  /** Bindings, memberships and products may change at will, but time does not go back and no account
      moves to another user; and an account is wiped while its owner still resolves. */
  ghost predicate Possible(t: Tables, a: Action, homes: Homes) {
    match a
    case Bill(op) => Proper(op)
    case WipeAccount(account) => account in t.dir.accounts ==> ResolveOwner(t.dir, account).Some?
    case ChangeDirectory(dir) => Settled(dir, homes) && t.dir.world.now <= dir.world.now
    case _ => true
  }

  ghost function Run(t: Tables, run: seq<Action>): Tables {
    if run == [] then t else After(Run(t, run[..|run| - 1]), run[|run| - 1])
  }

  ghost predicate PossibleRun(t: Tables, run: seq<Action>, homes: Homes) {
    run != [] ==> PossibleRun(t, run[..|run| - 1], homes) && Possible(Run(t, run[..|run| - 1]), run[|run| - 1], homes)
  }

  /** The invariant over all tables. */
  ghost predicate Good(t: Tables, homes: Homes) {
    Inv(t) && AtHome(t.book.ledger, homes) && Settled(t.dir, homes)
  }

  lemma EmptyGood(dir: Directory, homes: Homes)
    requires Settled(dir, homes)
    ensures Good(Tables(dir, Book(map[], []), [], map[], map[], map[], map[]), homes)
  {
  }

  // ---- where new ledger rows sit, and when a first qualification is dated ----

  lemma AppliedAtHome(t: Tables, q: Request, homes: Homes)
    requires Settled(t.dir, homes) && AtHome(t.book.ledger, homes) && Applied(t, q).Ok?
    ensures AtHome(Applied(t, q).value.book.ledger, homes)
  {
    var scope := ResolveScope(t.dir, q.account, Some(q.user)).value;
    PostAtHome(t, PostingOf(q, scope, false), homes);
  }

  lemma PostAtHome(t: Tables, p: Posting, homes: Homes)
    requires Settled(t.dir, homes) && AtHome(t.book.ledger, homes) && Post(t.book, p).Ok?
    requires ResolveScope(t.dir, p.account, Some(p.user)) == Ok(Scope(p.user, p.app))
    ensures AtHome(Post(t.book, p).value.book.ledger, homes)
  {
    if !HasKey(t.book.ledger, p.app, p.key) {
      PostAppends(t.book, p);
      SettledOwner(t.dir, homes, p.account);
    }
  }

  /** A billing call appends at most one row, in its account's home, and never under a reward's key. */
  ghost predicate AtMostOneMore(before: seq<LedgerRow>, after: seq<LedgerRow>) {
    || after == before
    || (|after| > 0 && after == before + [after[|after| - 1]] && !after[|after| - 1].key.RewardOf?)
  }

  lemma PostOneMore(b: Book, p: Posting)
    requires Post(b, p).Ok? && !p.key.RewardOf?
    ensures AtMostOneMore(b.ledger, Post(b, p).value.book.ledger)
  {
    if !HasKey(b.ledger, p.app, p.key) {
      PostAppends(b, p);
    }
  }

  lemma PostsOneMore(t: Tables, op: Op, homes: Homes)
    requires Settled(t.dir, homes) && AtHome(t.book.ledger, homes)
    requires Proper(op) && !op.Use? && Posts(t, op).Ok?
    ensures AtMostOneMore(t.book.ledger, Posts(t, op).value.book.ledger) && AtHome(Posts(t, op).value.book.ledger, homes)
  {
    match op
    case Grant(q) =>
      PostOneMore(t.book, PostingOf(q.(entry := Credit), ResolveScope(t.dir, q.account, Some(q.user)).value, false));
      AppliedAtHome(t, q.(entry := Credit), homes);
    case Reserve(q) =>
      var p := PostingOf(q, ResolveScope(t.dir, q.account, Some(q.user)).value, true);
      if !HasKey(t.book.ledger, p.app, p.key) {
        PostOneMore(t.book, p);
        PostAtHome(t, p, homes);
      }
    case Release(account, user, key, walletId, ledgerId) =>
      var scope := ResolveScope(t.dir, account, Some(user)).value;
      var x := FindReservation(t.book.ledger, scope.app, key, account, user).value;
      PostOneMore(t.book, PostingOf(ReleaseRequest(x, walletId, ledgerId), scope, false));
      AppliedAtHome(t, ReleaseRequest(x, walletId, ledgerId), homes);
  }

  lemma ChargeOneMore(t: Tables, c: Charge, homes: Homes)
    requires Settled(t.dir, homes) && AtHome(t.book.ledger, homes)
    ensures AtMostOneMore(t.book.ledger, Charged(t, c).0.book.ledger) && AtHome(Charged(t, c).0.book.ledger, homes)
  {
    if Charged(t, c).0 != t {
      var scope := ResolveScope(t.dir, c.account, None).value;
      ClaimResolved(t.dir, c.account);
      var pair := EnsuredWallet(t.book.wallets, c.account, scope.user, scope.app, c.walletId).value;
      var mid := t.(book := t.book.(wallets := pair.1));
      PostOneMore(mid.book, PostingOf(ChargeRequest(c, scope.user), scope, false));
      AppliedAtHome(mid, ChargeRequest(c, scope.user), homes);
    }
  }

  lemma AppendKeepsRewards(before: seq<LedgerRow>, after: seq<LedgerRow>, referrals: map<Id, Relationship>)
    requires RewardInv(before, referrals) && AtMostOneMore(before, after)
    ensures RewardInv(after, referrals)
  {
    assert Unfold(0);
    forall id | id in referrals && referrals[id].rewardId.Some? ensures RewardBacked(after, id, referrals[id]) {
      assert RewardBacked(before, id, referrals[id]);
      var row :| row in before && RewardRowOf(row, id, referrals[id]);
      assert row in after;
    }
  }

  lemma BillAppends(t: Tables, op: Op, homes: Homes)
    requires Settled(t.dir, homes) && AtHome(t.book.ledger, homes) && Proper(op)
    ensures var t' := BillingRuns.Step(t, op);
            AtMostOneMore(t.book.ledger, t'.book.ledger) && AtHome(t'.book.ledger, homes) && t'.referrals == t.referrals
  {
    if op.Use? {
      ChargeOneMore(t, op.c, homes);
    } else if Posts(t, op).Ok? {
      PostsOneMore(t, op, homes);
    }
  }

  lemma BillKeeps(t: Tables, op: Op, homes: Homes)
    requires Good(t, homes) && Proper(op)
    ensures Good(BillingRuns.Step(t, op), homes) && BillingRuns.Step(t, op).referrals == t.referrals
  {
    BillingRuns.StepKeeps(t, op);
    StepGrows(t, op);
    BillAppends(t, op, homes);
    AppendKeepsRewards(t.book.ledger, BillingRuns.Step(t, op).book.ledger, t.referrals);
  }

  /** A first qualification is dated now. */
  ghost predicate Dated(r: Relationship, r': Relationship, now: int) {
    r'.qualifiedAt == r.qualifiedAt || r'.qualifiedAt == Some(now)
  }

  ghost predicate AllDated(before: map<Id, Relationship>, after: map<Id, Relationship>, now: int) {
    && before.Keys <= after.Keys
    && forall id {:trigger Dated(before[id], after[id], now)} :: id in before ==> Dated(before[id], after[id], now)
  }

  ghost predicate Tracked(t: Tables, t': Tables, homes: Homes) {
    && t'.dir == t.dir && AtHome(t'.book.ledger, homes)
    && AllDated(t.referrals, t'.referrals, t.dir.world.now)
  }

  lemma TrackedTwice(a: Tables, b: Tables, c: Tables, homes: Homes)
    requires Tracked(a, b, homes) && Tracked(b, c, homes)
    ensures Tracked(a, c, homes)
  {
    forall id | id in a.referrals ensures Dated(a.referrals[id], c.referrals[id], a.dir.world.now) {
      assert Dated(a.referrals[id], b.referrals[id], a.dir.world.now);
      assert Dated(b.referrals[id], c.referrals[id], a.dir.world.now);
    }
  }

  lemma PutTracked(t: Tables, id: Id, r: Relationship, reviews: map<Id, Review>, homes: Homes)
    requires AtHome(t.book.ledger, homes) && id in t.referrals && Dated(t.referrals[id], r, t.dir.world.now)
    ensures Tracked(t, Put(t, id, r).(reviews := reviews), homes)
  {
  }

  lemma RewardTracked(t: Tables, id: Id, newIds: NewIds, homes: Homes)
    requires Settled(t.dir, homes) && AtHome(t.book.ledger, homes)
    ensures Tracked(t, RewardApplied(t, id, newIds).0, homes)
  {
    if id in t.referrals && t.referrals[id].rewardId.None? {
      var r := t.referrals[id];
      var account := FirstRewardable(t.dir.accounts, t.dir.bindings, r.inviter, r.app);
      if account.Some? && Applied(t, RewardRequest(r, id, account.value, newIds)).Ok? {
        AppliedAtHome(t, RewardRequest(r, id, account.value, newIds), homes);
      }
    }
  }

  lemma ReleaseTracked(t: Tables, id: Id, newIds: NewIds, homes: Homes)
    requires Settled(t.dir, homes) && AtHome(t.book.ledger, homes)
    ensures Tracked(t, DelayedReleased(t, id, newIds).0, homes)
  {
    if id in t.referrals && HoldElapsed(t.referrals[id], t.dir.world.now) {
      var passed := t.referrals[id].(review := Passed);
      PutTracked(t, id, passed, ReviewPassed(t, id), homes);
      var mid := Put(t, id, passed).(reviews := ReviewPassed(t, id));
      RewardTracked(mid, id, newIds, homes);
      TrackedTwice(t, mid, DelayedReleased(t, id, newIds).0, homes);
    }
  }

  lemma ConcludeTracked(t: Tables, id: Id, newIds: NewIds, homes: Homes)
    requires Settled(t.dir, homes) && AtHome(t.book.ledger, homes) && id in t.referrals
    ensures Tracked(t, Concluded(t, id, newIds).0, homes)
  {
    var r := t.referrals[id];
    if r.softReview {
      match r.review
      case Passed => RewardTracked(t, id, newIds, homes);
      case Pending =>
        var held := Held(t, id);
        PutTracked(t, id, HeldRow(r, t.dir.world.now), held.reviews, homes);
        ReleaseTracked(held, id, newIds, homes);
        TrackedTwice(t, held, Concluded(t, id, newIds).0, homes);
      case Failed =>
    } else {
      var reviews := if id in t.reviews then t.reviews else t.reviews[id := Passed];
      if reviews[id] == Passed {
        var passed := r.(status := Qualified, review := Passed);
        PutTracked(t, id, passed, reviews, homes);
        var mid := Put(t, id, passed).(reviews := reviews);
        RewardTracked(mid, id, newIds, homes);
        TrackedTwice(t, mid, RewardApplied(mid, id, newIds).0, homes);
      }
    }
  }

  lemma CountedTracked(t: Tables, id: Id, account: Id, message: int, newIds: NewIds, homes: Homes)
    requires Settled(t.dir, homes) && AtHome(t.book.ledger, homes) && id in t.referrals
    ensures Tracked(t, Counted(t, id, account, message), homes)
    ensures Tracked(t, Concluded(Counted(t, id, account, message), id, newIds).0, homes)
  {
    var counted := Counted(t, id, account, message);
    PutTracked(t, id, counted.referrals[id], t.reviews, homes);
    ConcludeTracked(counted, id, newIds, homes);
    TrackedTwice(t, counted, Concluded(counted, id, newIds).0, homes);
  }

  lemma MessageTracked(t: Tables, account: Id, message: int, newIds: NewIds, homes: Homes)
    requires Settled(t.dir, homes) && AtHome(t.book.ledger, homes)
    ensures Tracked(t, Processed(t, account, message, newIds).0, homes)
  {
    var owner := FirstMessageOwner(t.dir.accounts, t.dir.bindings, account);
    if owner.Some? {
      var (bound, found) := MarkedBound(t, owner.value, account);
      assert Tracked(t, bound, homes);
      if found.Some? && bound.referrals[found.value].rewardId.None? {
        CountedTracked(bound, found.value, account, message, newIds, homes);
        TrackedTwice(t, bound, Counted(bound, found.value, account, message), homes);
        TrackedTwice(t, bound, Concluded(Counted(bound, found.value, account, message), found.value, newIds).0, homes);
      }
    }
  }

  lemma {:induction false} ReleasedAllTracked(t: Tables, ids: seq<Id>, newIds: NewIds, homes: Homes)
    requires Settled(t.dir, homes) && AtHome(t.book.ledger, homes)
    ensures Tracked(t, ReleasedAll(t, ids, newIds).t, homes)
  {
    if ids != [] {
      var b := ReleasedAll(t, ids[..|ids| - 1], newIds);
      ReleasedAllTracked(t, ids[..|ids| - 1], newIds, homes);
      if !b.aborted {
        ReleaseTracked(b.t, ids[|ids| - 1], newIds, homes);
        TrackedTwice(t, b.t, ReleasedAll(t, ids, newIds).t, homes);
      }
    }
  }

  lemma {:induction false} RewardedAllTracked(t: Tables, ids: seq<Id>, newIds: NewIds, homes: Homes)
    requires Settled(t.dir, homes) && AtHome(t.book.ledger, homes)
    ensures Tracked(t, RewardedAll(t, ids, newIds).0, homes)
  {
    if ids != [] {
      var (mid, paid) := RewardedAll(t, ids[..|ids| - 1], newIds);
      RewardedAllTracked(t, ids[..|ids| - 1], newIds, homes);
      if paid.Ok? {
        RewardTracked(mid, ids[|ids| - 1], newIds, homes);
        TrackedTwice(t, mid, RewardedAll(t, ids, newIds).0, homes);
      }
    }
  }

  lemma RetryTracked(t: Tables, order: seq<Id>, inviter: Id, app: Id, newIds: NewIds, homes: Homes)
    requires Settled(t.dir, homes) && AtHome(t.book.ledger, homes)
    ensures Tracked(t, Retried(t, order, inviter, app, newIds).0, homes)
  {
    var due := Limited(Select(t.referrals, order, Some(inviter), app, Pending), 100);
    var b := ReleasedAll(t, due, newIds);
    ReleasedAllTracked(t, due, newIds, homes);
    if !b.aborted {
      var ids := Select(b.t.referrals, order, Some(inviter), app, Passed);
      RewardedAllTracked(b.t, ids, newIds, homes);
      TrackedTwice(t, b.t, RewardedAll(b.t, ids, newIds).0, homes);
    }
  }

  // ---- one action, any run ----

  lemma ReferralActionKeeps(t: Tables, a: Action, homes: Homes)
    requires Good(t, homes) && !a.Bill? && !a.WipeAccount? && !a.ChangeDirectory?
    ensures Good(After(t, a), homes) && AllForward(t.referrals, After(t, a).referrals) && Tracked(t, After(t, a), homes)
  {
    match a
    case Register(id, inviter, invitee, app) =>
      if RegisteredReferral(t, id, inviter, invitee, app).Ok? { RegisterKeeps(t, id, inviter, invitee, app); }
    case Bind(user, account) => MarkBoundKeeps(t, user, account);
    case Message(account, message, newIds) =>
      MessageKeeps(t, account, message, newIds);
      MessageTracked(t, account, message, newIds, homes);
    case ReleaseDue(order, inviter, app, limit, newIds) =>
      var due := Limited(Select(t.referrals, order, inviter, app, Pending), limit);
      ReleasedAllKeeps(t, due, newIds);
      ReleasedAllTracked(t, due, newIds, homes);
    case Retry(order, inviter, app, newIds) =>
      RetryKeeps(t, order, inviter, app, newIds);
      RetryTracked(t, order, inviter, app, newIds, homes);
  }

  lemma TimePasses(r: Relationship, now: int, later: int)
    requires RelationshipOk(r, now) && now <= later
    ensures RelationshipOk(r, later)
  {
  }

  lemma DirectoryKeeps(t: Tables, dir: Directory, homes: Homes)
    requires Good(t, homes) && Settled(dir, homes) && t.dir.world.now <= dir.world.now
    ensures Good(t.(dir := dir), homes)
  {
    FoldSame(t, t.(dir := dir));
    forall id | id in t.referrals ensures RelationshipOk(t.referrals[id], dir.world.now) {
      TimePasses(t.referrals[id], t.dir.world.now, dir.world.now);
    }
  }

  /** Every call keeps the whole invariant, and moves every relationship only forward. */
  lemma ActionKeeps(t: Tables, a: Action, homes: Homes)
    requires Good(t, homes) && Possible(t, a, homes)
    ensures Good(After(t, a), homes) && AllForward(t.referrals, After(t, a).referrals)
  {
    match a
    case Bill(op) => BillKeeps(t, op, homes);
    case WipeAccount(account) => if account in t.dir.accounts { WipeKeepsAudit(t, homes, account); }
    case ChangeDirectory(dir) => DirectoryKeeps(t, dir, homes);
    case _ => ReferralActionKeeps(t, a, homes);
  }

  /** Over every run of calls, wipes, clock ticks and directory changes the invariant holds, and no
      relationship ever goes back: its status, candidates, hold and reward only advance. */
  lemma {:induction false} RunKeeps(t: Tables, run: seq<Action>, homes: Homes)
    requires Good(t, homes) && PossibleRun(t, run, homes)
    ensures Good(Run(t, run), homes) && AllForward(t.referrals, Run(t, run).referrals)
  {
    if run != [] {
      var mid := Run(t, run[..|run| - 1]);
      RunKeeps(t, run[..|run| - 1], homes);
      ActionKeeps(mid, run[|run| - 1], homes);
      ForwardTwice(t.referrals, mid.referrals, Run(t, run).referrals);
    }
  }

  // ---- what that says of referrals ----

  ghost predicate OnlyReward(t: Tables, id: Id, row: LedgerRow) {
    row in t.book.ledger && forall x <- t.book.ledger :: x.key == RewardOf(id) ==> x == row
  }

  /** A relationship is rewarded exactly when its reward id is set, and exactly then one reward row
      exists for it in the whole ledger: the one it names, crediting the inviter the fixed amount. */
  lemma RewardedExactlyOnce(t: Tables, id: Id)
    requires Inv(t) && id in t.referrals
    ensures var r := t.referrals[id];
            && (r.status == Rewarded <==> r.rewardId.Some?)
            && (r.rewardId.Some? <==> exists x <- t.book.ledger :: x.key == RewardOf(id))
            && (r.rewardId.Some? ==> exists row :: OnlyReward(t, id, row) && RewardRowOf(row, id, r))
  {
    assert Unfold(0);
    assert RelationshipOk(t.referrals[id], t.dir.world.now);
    if t.referrals[id].rewardId.Some? {
      assert RewardBacked(t.book.ledger, id, t.referrals[id]);
      var row :| row in t.book.ledger && RewardRowOf(row, id, t.referrals[id]);
      forall x <- t.book.ledger | x.key == RewardOf(id) ensures x == row {
        SameKeySameRow(t.book.ledger, x, row);
      }
      assert OnlyReward(t, id, row);
    }
  }

  function Members(s: seq<int>): set<int> {
    set m | m in s
  }

  /** The message count is the number of distinct candidate messages, and three is exactly where it
      qualifies. */
  lemma CountsDistinctMessages(t: Tables, id: Id)
    requires Inv(t) && id in t.referrals
    ensures var r := t.referrals[id];
            && r.count == |Members(r.candidates)|
            && (r.status == Qualified || r.status == Rewarded <==> |Members(r.candidates)| >= 3)
  {
    assert RelationshipOk(t.referrals[id], t.dir.world.now);
    DistinctCount(t.referrals[id].candidates);
  }

  lemma {:induction false} DistinctCount(s: seq<int>)
    requires Distinct(s)
    ensures |Members(s)| == |s|
  {
    if s != [] {
      var pre := s[..|s| - 1];
      DistinctCount(pre);
      assert Members(s) == Members(pre) + {s[|s| - 1]};
    }
  }

  /** A first qualification on hold is dated after the run began. */
  lemma {:induction false} QualifiedLater(t: Tables, run: seq<Action>, homes: Homes, id: Id)
    requires Good(t, homes) && PossibleRun(t, run, homes) && id in t.referrals && t.referrals[id].qualifiedAt.None?
    ensures t.dir.world.now <= Run(t, run).dir.world.now && id in Run(t, run).referrals
    ensures Run(t, run).referrals[id].qualifiedAt.Some? ==> t.dir.world.now <= Run(t, run).referrals[id].qualifiedAt.value
  {
    if run != [] {
      var (mid, a) := (Run(t, run[..|run| - 1]), run[|run| - 1]);
      QualifiedLater(t, run[..|run| - 1], homes, id);
      RunKeeps(t, run[..|run| - 1], homes);
      ActionDated(mid, a, homes);
      assert Dated(mid.referrals[id], After(mid, a).referrals[id], mid.dir.world.now);
    }
  }

  lemma ActionDated(t: Tables, a: Action, homes: Homes)
    requires Good(t, homes) && Possible(t, a, homes)
    ensures t.dir.world.now <= After(t, a).dir.world.now
    ensures AllDated(t.referrals, After(t, a).referrals, t.dir.world.now)
  {
    match a
    case Bill(op) => BillKeeps(t, op, homes); StepGrows(t, op);
    case WipeAccount(account) =>
    case ChangeDirectory(dir) =>
    case _ => ReferralActionKeeps(t, a, homes);
  }

  /** The soft-review hold, over every run, whichever of message, retry and batch release tries and
      whatever fails midway: the release time is the first qualification plus three days, it is never
      moved once set, and before it no run ends with the relationship rewarded. */
  lemma HoldIsKept(t: Tables, run: seq<Action>, homes: Homes, id: Id)
    requires Good(t, homes) && PossibleRun(t, run, homes) && id in t.referrals && t.referrals[id].softReview
    ensures id in Run(t, run).referrals
    ensures var (r, r', now') := (t.referrals[id], Run(t, run).referrals[id], Run(t, run).dir.world.now);
            && (r.releaseAfter.Some? ==> r'.releaseAfter == r.releaseAfter)
            && (r.status != Qualified && r.status != Rewarded && r'.releaseAfter.Some? ==>
                  t.dir.world.now + 3 * 86400 <= r'.releaseAfter.value)
            && (r'.status == Rewarded ==>
                  r'.releaseAfter.Some? && r'.rewardedAt.Some? && r'.releaseAfter.value <= r'.rewardedAt.value <= now')
            && (r'.releaseAfter.Some? && now' < r'.releaseAfter.value ==>
                  r'.status != Rewarded && forall x <- Run(t, run).book.ledger :: x.key != RewardOf(id))
  {
    RunKeeps(t, run, homes);
    var t' := Run(t, run);
    assert RelationshipOk(t.referrals[id], t.dir.world.now);
    assert Forward(t.referrals[id], t'.referrals[id]);
    assert RelationshipOk(t'.referrals[id], t'.dir.world.now);
    RewardedExactlyOnce(t', id);
    if t.referrals[id].qualifiedAt.None? {
      QualifiedLater(t, run, homes, id);
    }
  }

  /** Once paid, a relationship stays paid by the same row, whatever runs after it. */
  lemma PaidForGood(t: Tables, run: seq<Action>, homes: Homes, id: Id)
    requires Good(t, homes) && PossibleRun(t, run, homes) && id in t.referrals && t.referrals[id].rewardId.Some?
    ensures id in Run(t, run).referrals && Run(t, run).referrals[id].rewardId == t.referrals[id].rewardId
    ensures exists row <- Run(t, run).book.ledger :: t.referrals[id].rewardId == Some(row.id) && row.key == RewardOf(id)
  {
    RunKeeps(t, run, homes);
    var t' := Run(t, run);
    assert Forward(t.referrals[id], t'.referrals[id]);
    assert Unfold(0);
    assert RewardBacked(t'.book.ledger, id, t'.referrals[id]);
  }

  // ---- and the reward does come ----

  /** The inviter has a rewardable account whose scope resolves, and the new ids are unused. */
  ghost predicate CanPay(t: Tables, r: Relationship, id: Id, newIds: NewIds) {
    var account := FirstRewardable(t.dir.accounts, t.dir.bindings, r.inviter, r.app);
    && account.Some? && ResolveScope(t.dir, account.value, Some(r.inviter)).Ok?
    && EnsuredWallet(t.book.wallets, account.value, r.inviter, r.app, newIds(id).0).Ok?
    && forall x <- t.book.ledger :: x.id != newIds(id).1
  }

  ghost predicate JustPaid(t: Tables, t': Tables, id: Id, r: Relationship) {
    && id in t'.referrals && t'.referrals[id].status == Rewarded
    && BalanceOf(t'.book, r.inviter, r.app) == BalanceOf(t.book, r.inviter, r.app) + REWARD_MICROS
    && |t'.book.ledger| == |t.book.ledger| + 1
  }

  lemma PostRaises(b: Book, p: Posting)
    requires UniqueWallets(b.wallets) && Post(b, p).Ok? && !HasKey(b.ledger, p.app, p.key)
    ensures var b' := Post(b, p).value.book;
            BalanceOf(b', p.user, p.app) == BalanceOf(b, p.user, p.app) + p.amount && |b'.ledger| == |b.ledger| + 1
  {
    PostAppends(b, p);
    EnsuredUnique(b.wallets, p.account, p.user, p.app, p.walletId);
    var Posted(b', row) := Post(b, p).value;
    var w := ActiveWallet(b'.wallets, p.user, p.app);
    assert ActiveFor(b'.wallets[row.wallet], p.user, p.app);
  }

  lemma RewardPays(t: Tables, id: Id, newIds: NewIds)
    requires Inv(t) && id in t.referrals && t.referrals[id].rewardId.None? && CanPay(t, t.referrals[id], id, newIds)
    ensures JustPaid(t, RewardApplied(t, id, newIds).0, id, t.referrals[id])
    ensures RewardApplied(t, id, newIds).1.Ok?
  {
    var r := t.referrals[id];
    var account := FirstRewardable(t.dir.accounts, t.dir.bindings, r.inviter, r.app).value;
    NoRewardYet(t.book.ledger, t.referrals, id);
    var p := PostingOf(RewardRequest(r, id, account, newIds), ResolveScope(t.dir, account, Some(r.inviter)).value, false);
    assert UniqueWallets(t.book.wallets) by { assert Unfold(0); }
    PostRaises(t.book, p);
  }

  /** A relationship on hold is paid by the first release after its time, ... */
  lemma ElapsedHoldPays(t: Tables, id: Id, newIds: NewIds)
    requires Inv(t) && id in t.referrals && HoldElapsed(t.referrals[id], t.dir.world.now)
    requires CanPay(t, t.referrals[id], id, newIds)
    ensures JustPaid(t, DelayedReleased(t, id, newIds).0, id, t.referrals[id])
  {
    var passed := t.referrals[id].(review := Passed);
    assert RelationshipOk(t.referrals[id], t.dir.world.now);
    PutKeeps(t, id, passed, ReviewPassed(t, id));
    RewardPays(Put(t, id, passed).(reviews := ReviewPassed(t, id)), id, newIds);
  }

  /** The message is an unseen meaningful one from the bound account's user. */
  ghost predicate Counts(t: Tables, r: Relationship, account: Id, message: int) {
    var messages := t.dir.world.messages;
    && message in messages && messages[message].account == account && messages[message].inbound
    && messages[message].fromUser && messages[message].meaningful && message !in r.candidates
  }

  /** The message is the third that counts for a bound relationship with no hold on it. */
  ghost predicate ThirdMessage(t: Tables, account: Id, message: int, id: Id)
    requires id in t.referrals
  {
    var r := t.referrals[id];
    && r.status == Bound && r.count == 2 && !r.softReview && (id in t.reviews ==> t.reviews[id] == Passed)
    && FirstMessageOwner(t.dir.accounts, t.dir.bindings, account) == Some(r.invitee)
    && t.dir.accounts[account].app == r.app && r.app in t.dir.world.enabled
    && (r.invitee, r.app) in t.dir.world.members
    && Counts(t, r, account, message)
  }

  lemma MessageConcludes(t: Tables, account: Id, message: int, newIds: NewIds, id: Id)
    requires OneReferralEach(t.referrals) && id in t.referrals && ThirdMessage(t, account, message, id)
    requires RelationshipOk(t.referrals[id], t.dir.world.now)
    ensures var (t', r) := Concluded(Put(t, id, CountedRow(t.referrals[id], message)), id, newIds);
            r.Ok? ==> Processed(t, account, message, newIds).0 == t'
  {
    var r := t.referrals[id];
    assert FindReferral(t.referrals, r.invitee, r.app) == Some(id) by { assert Between(r, r.invitee, r.app); }
    assert MarkedBound(t, r.invitee, account) == (t, Some(id));
    assert Counted(t, id, account, message) == Put(t, id, CountedRow(r, message));
  }

  function SettledRow(r: Relationship, message: int): Relationship {
    CountedRow(r, message).(status := Qualified, review := Passed)
  }

  lemma SettledRowOk(r: Relationship, message: int, now: int)
    requires RelationshipOk(r, now) && message !in r.candidates && r.status == Bound && r.count == 2 && !r.softReview
    ensures RelationshipOk(SettledRow(r, message), now) && Forward(r, SettledRow(r, message))
    ensures SettledRow(r, message).rewardId == r.rewardId == None
  {
  }

  function PassedReviews(reviews: map<Id, Review>, id: Id): map<Id, Review> {
    if id in reviews then reviews else reviews[id := Passed]
  }

  lemma ConcludedIs(t: Tables, id: Id, message: int, newIds: NewIds)
    requires id in t.referrals && !t.referrals[id].softReview && PassedReviews(t.reviews, id)[id] == Passed
    ensures Concluded(Put(t, id, CountedRow(t.referrals[id], message)), id, newIds)
         == RewardApplied(Put(t, id, SettledRow(t.referrals[id], message)).(reviews := PassedReviews(t.reviews, id)), id, newIds)
  {
    var counted := Put(t, id, CountedRow(t.referrals[id], message));
    assert Put(counted.(reviews := PassedReviews(t.reviews, id)), id, SettledRow(t.referrals[id], message))
        == Put(t, id, SettledRow(t.referrals[id], message)).(reviews := PassedReviews(t.reviews, id));
    assert counted.(reviews := t.reviews) == counted;
  }

  lemma CountedPays(t: Tables, id: Id, message: int, newIds: NewIds)
    requires Inv(t) && id in t.referrals && message !in t.referrals[id].candidates
    requires var r := t.referrals[id];
             r.status == Bound && r.count == 2 && !r.softReview && (id in t.reviews ==> t.reviews[id] == Passed)
    requires CanPay(t, t.referrals[id], id, newIds)
    ensures var (t', r) := Concluded(Put(t, id, CountedRow(t.referrals[id], message)), id, newIds);
            r.Ok? && JustPaid(t, t', id, t.referrals[id])
  {
    var settled := SettledRow(t.referrals[id], message);
    assert RelationshipOk(t.referrals[id], t.dir.world.now);
    SettledRowOk(t.referrals[id], message, t.dir.world.now);
    PutKeeps(t, id, settled, PassedReviews(t.reviews, id));
    ConcludedIs(t, id, message, newIds);
    RewardPays(Put(t, id, settled).(reviews := PassedReviews(t.reviews, id)), id, newIds);
  }

  /** .. and one that is not on hold by its third meaningful message, at once. */
  lemma ThirdMessagePays(t: Tables, account: Id, message: int, newIds: NewIds, id: Id)
    requires Inv(t) && id in t.referrals && ThirdMessage(t, account, message, id)
    requires CanPay(t, t.referrals[id], id, newIds)
    ensures JustPaid(t, Processed(t, account, message, newIds).0, id, t.referrals[id])
  {
    assert OneReferralEach(t.referrals) by { assert Unfold(0); }
    assert RelationshipOk(t.referrals[id], t.dir.world.now);
    MessageConcludes(t, account, message, newIds, id);
    CountedPays(t, id, message, newIds);
  }
}
