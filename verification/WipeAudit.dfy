/** Wiping an account whose owner still resolves keeps the whole financial audit chain. */
module WipeAudit {
  import opened Wrappers
  import opened Ledger
  import opened Tables
  import opened Filters
  import opened BillingRuns
  import opened ReferralRuns
  import opened Wipe

  /** Every ledger row was posted for its account's one home. */
  ghost predicate AtHome(ledger: seq<LedgerRow>, homes: Homes) {
    forall r <- ledger :: r.account in homes && homes[r.account] == Scope(r.user, r.app)
  }

  function Outside(doomed: set<Id>): LedgerRow -> bool {
    (r: LedgerRow) => r.wallet !in doomed
  }

  // ---- deleting whole wallets ----

  lemma SumKept(rows: seq<LedgerRow>, keep: LedgerRow -> bool, w: Id)
    requires rows != []
    ensures var (pre, last) := (rows[..|rows| - 1], rows[|rows| - 1]);
            SumFor(Filter(rows, keep), w)
            == SumFor(Filter(pre, keep), w) + if keep(last) && last.wallet == w then last.amount else 0
  {
    var kept := Filter(rows[..|rows| - 1], keep);
    assert kept + [] == kept;
    SumForAppend(kept, rows[|rows| - 1], w);
  }

  lemma {:induction false} SumOutside(rows: seq<LedgerRow>, doomed: set<Id>, w: Id)
    requires w !in doomed
    ensures SumFor(Filter(rows, Outside(doomed)), w) == SumFor(rows, w)
  {
    if rows != [] {
      SumOutside(rows[..|rows| - 1], doomed, w);
      SumKept(rows, Outside(doomed), w);
    }
  }

  lemma {:induction false} UniqueKept(rows: seq<LedgerRow>, keep: LedgerRow -> bool)
    requires UniqueRows(rows)
    ensures UniqueRows(Filter(rows, keep))
  {
    if rows != [] {
      var (pre, last) := (rows[..|rows| - 1], rows[|rows| - 1]);
      UniqueKept(pre, keep);
      assert Filter(pre, keep) + [] == Filter(pre, keep);
      forall r <- pre ensures !Keyed(r, last.app, last.key) && r.id != last.id {
        var i :| 0 <= i < |pre| && pre[i] == r;
        assert !Keyed(rows[|rows| - 1], rows[i].app, rows[i].key);
      }
      UniqueRowsAppend(Filter(pre, keep), last);
    }
  }

  ghost predicate RowRuns(wallets: map<Id, Wallet>, rows: seq<LedgerRow>, i: nat)
    requires i < |rows|
  {
    && rows[i].wallet in wallets
    && wallets[rows[i].wallet].user == rows[i].user && wallets[rows[i].wallet].app == rows[i].app
    && rows[i].amount != 0
    && rows[i].balanceAfter == SumFor(rows[..i + 1], rows[i].wallet)
  }

  ghost predicate AllRun(wallets: map<Id, Wallet>, rows: seq<LedgerRow>) {
    forall i :: 0 <= i < |rows| ==> RowRuns(wallets, rows, i)
  }

  lemma {:induction false} RunningOutside(wallets: map<Id, Wallet>, rows: seq<LedgerRow>, doomed: set<Id>)
    requires AllRun(wallets, rows)
    ensures AllRun(Without(wallets, doomed), Filter(rows, Outside(doomed)))
  {
    if rows != [] {
      var (pre, last) := (rows[..|rows| - 1], rows[|rows| - 1]);
      forall i | 0 <= i < |pre| ensures RowRuns(wallets, pre, i) {
        assert RowRuns(wallets, rows, i) && pre[..i + 1] == rows[..i + 1];
      }
      RunningOutside(wallets, pre, doomed);
      assert RowRuns(wallets, rows, |rows| - 1) && rows[..|rows|] == rows;
      LastOutside(wallets, rows, doomed, Filter(pre, Outside(doomed)));
    }
  }

  lemma LastOutside(wallets: map<Id, Wallet>, rows: seq<LedgerRow>, doomed: set<Id>, was: seq<LedgerRow>)
    requires rows != [] && RowRuns(wallets, rows, |rows| - 1) && rows[..|rows|] == rows
    requires was == Filter(rows[..|rows| - 1], Outside(doomed)) && AllRun(Without(wallets, doomed), was)
    ensures AllRun(Without(wallets, doomed), Filter(rows, Outside(doomed)))
  {
    var kept := Filter(rows, Outside(doomed));
    var last := rows[|rows| - 1];
    if last.wallet in doomed {
      assert kept == was + [] == was;
    } else {
      assert kept == was + [last];
      SumOutside(rows, doomed, last.wallet);
      RunsAppend(Without(wallets, doomed), was, last);
    }
  }

  lemma RunsAppend(wallets: map<Id, Wallet>, was: seq<LedgerRow>, last: LedgerRow)
    requires AllRun(wallets, was) && last.wallet in wallets
    requires wallets[last.wallet].user == last.user && wallets[last.wallet].app == last.app && last.amount != 0
    requires last.balanceAfter == SumFor(was + [last], last.wallet)
    ensures AllRun(wallets, was + [last])
  {
    var kept := was + [last];
    forall i | 0 <= i < |kept| ensures RowRuns(wallets, kept, i) {
      if i < |was| {
        assert RowRuns(wallets, was, i) && was[..i + 1] == kept[..i + 1];
      } else {
        assert kept[..|kept|] == kept;
      }
    }
  }

  lemma RunsAre(wallets: map<Id, Wallet>, rows: seq<LedgerRow>)
    ensures AllRun(wallets, rows) <==> RunningBalances(Book(wallets, rows))
  {
    if AllRun(wallets, rows) {
      forall i | 0 <= i < |rows|
        ensures rows[i].wallet in wallets && wallets[rows[i].wallet].user == rows[i].user
             && wallets[rows[i].wallet].app == rows[i].app && rows[i].amount != 0
             && rows[i].balanceAfter == SumFor(rows[..i + 1], rows[i].wallet)
      {
        assert RowRuns(wallets, rows, i);
      }
    }
  }

  lemma ConsistentOutside(b: Book, doomed: set<Id>)
    requires Consistent(b)
    ensures Consistent(Book(Without(b.wallets, doomed), Filter(b.ledger, Outside(doomed))))
  {
    var b' := Book(Without(b.wallets, doomed), Filter(b.ledger, Outside(doomed)));
    UniqueKept(b.ledger, Outside(doomed));
    RunsAre(b.wallets, b.ledger);
    RunningOutside(b.wallets, b.ledger, doomed);
    RunsAre(b'.wallets, b'.ledger);
    forall w <- b'.wallets ensures b'.wallets[w].balance == SumFor(b'.ledger, w) {
      SumOutside(b.ledger, doomed, w);
    }
    assert UniqueWallets(b'.wallets);
  }

  // ---- what the wipe keeps is exactly what lies outside the doomed wallets ----

  lemma KeptRow(t: Tables, homes: Homes, account: Id, r: LedgerRow)
    requires account in t.dir.accounts && ResolveOwner(t.dir, account).Some? && Settled(t.dir, homes)
    requires r.account in homes && homes[r.account] == Scope(r.user, r.app)
    requires r.wallet in t.book.wallets
    requires t.book.wallets[r.wallet].user == r.user && t.book.wallets[r.wallet].app == r.app
    ensures Kept(r.wallet, r.account, r.app, account, t.dir.accounts[account].app, Doomed(t, account), Preserved(t, account))
            <==> r.wallet !in Doomed(t, account)
  {
    SettledOwner(t.dir, homes, account);
  }

  lemma KeptLedger(t: Tables, homes: Homes, account: Id)
    requires RunningBalances(t.book) && AtHome(t.book.ledger, homes)
    requires account in t.dir.accounts && ResolveOwner(t.dir, account).Some? && Settled(t.dir, homes)
    ensures WipedProduct(t, account).book
         == Book(Without(t.book.wallets, Doomed(t, account)), Filter(t.book.ledger, Outside(Doomed(t, account))))
  {
    var (app, doomed, preserved) := (t.dir.accounts[account].app, Doomed(t, account), Preserved(t, account));
    forall r <- t.book.ledger ensures KeepRow(account, app, doomed, preserved)(r) == Outside(doomed)(r) {
      var i :| 0 <= i < |t.book.ledger| && t.book.ledger[i] == r;
      KeptRow(t, homes, account, r);
    }
    FilterSame(t.book.ledger, KeepRow(account, app, doomed, preserved), Outside(doomed));
  }

  /** A cost event goes exactly when its usage row goes. */
  lemma KeptCost(t: Tables, homes: Homes, account: Id, e: CostEvent)
    requires RunningBalances(t.book) && AtHome(t.book.ledger, homes) && Backed(t.book.ledger, e)
    requires account in t.dir.accounts && ResolveOwner(t.dir, account).Some? && Settled(t.dir, homes)
    ensures KeepCost(account, t.dir.accounts[account].app, Doomed(t, account), Preserved(t, account))(e)
            <==> e.wallet !in Doomed(t, account)
  {
    var r :| r in t.book.ledger && PairOf(e, r);
    var i :| 0 <= i < |t.book.ledger| && t.book.ledger[i] == r;
    KeptRow(t, homes, account, r);
  }

  lemma {:induction false} UniqueCostsKept(costs: seq<CostEvent>, keep: CostEvent -> bool)
    requires UniqueCosts(costs)
    ensures UniqueCosts(Filter(costs, keep))
  {
    if costs != [] {
      var (pre, last) := (costs[..|costs| - 1], costs[|costs| - 1]);
      UniqueCostsKept(pre, keep);
      assert Filter(pre, keep) + [] == Filter(pre, keep);
      forall x <- pre ensures x.id != last.id && !(x.app == last.app && x.key == last.key) {
        var i :| 0 <= i < |pre| && pre[i] == x;
        assert costs[i] == x;
      }
      UniqueCostsAppend(Filter(pre, keep), last);
    }
  }

  lemma PairedOutside(t: Tables, homes: Homes, account: Id)
    requires RunningBalances(t.book) && AtHome(t.book.ledger, homes) && Paired(t.book.ledger, t.costs)
    requires account in t.dir.accounts && ResolveOwner(t.dir, account).Some? && Settled(t.dir, homes)
    ensures Paired(WipedProduct(t, account).book.ledger, WipedProduct(t, account).costs)
  {
    var t' := WipedProduct(t, account);
    KeptLedger(t, homes, account);
    UniqueCostsKept(t.costs, KeepCost(account, t.dir.accounts[account].app, Doomed(t, account), Preserved(t, account)));
    forall e | e in t'.costs ensures Backed(t'.book.ledger, e) {
      assert Backed(t.book.ledger, e);
      KeptCost(t, homes, account, e);
      var r :| r in t.book.ledger && PairOf(e, r);
      assert Outside(Doomed(t, account))(r);
    }
    forall r | r in t'.book.ledger && r.key.UsageOf? ensures Explained(t'.costs, r) {
      assert Explained(t.costs, r);
      var e :| e in t.costs && PairOf(e, r);
      assert Backed(t.book.ledger, e);
      KeptCost(t, homes, account, e);
    }
  }

  lemma ReservationsOutside(b: Book, doomed: set<Id>)
    requires ReservationsOk(b)
    ensures ReservationsOk(Book(Without(b.wallets, doomed), Filter(b.ledger, Outside(doomed))))
  {
    var rows := Filter(b.ledger, Outside(doomed));
    forall r | r in rows && r.key.ReleaseOf? ensures Undoes(rows, r) {
      assert Undoes(b.ledger, r);
      var x :| x in b.ledger && x.source == FixedReservation && ReleasedBy(r, x);
      assert Outside(doomed)(x);
    }
  }

  /** A wallet that holds some referral's reward row is never doomed. */
  lemma RewardsOutside(t: Tables, account: Id)
    requires account in t.dir.accounts && RewardsBacked(t.book.ledger, t.referrals)
    ensures RewardsBacked(Filter(t.book.ledger, Outside(Doomed(t, account))), t.referrals)
  {
    var rows := Filter(t.book.ledger, Outside(Doomed(t, account)));
    forall id | id in t.referrals && t.referrals[id].rewardId.Some? ensures RewardBacked(rows, id, t.referrals[id]) {
      assert RewardBacked(t.book.ledger, id, t.referrals[id]);
      var row :| row in t.book.ledger && RewardRowOf(row, id, t.referrals[id]);
      assert Referenced(t.book.ledger, t.referrals, row.wallet);
      assert Outside(Doomed(t, account))(row);
    }
  }

  // ---- main results ----

  lemma SettledAfterWipe(dir: Directory, homes: Homes, account: Id)
    requires Settled(dir, homes) && account in dir.accounts
    ensures Settled(WipedDirectory(dir, account), homes)
  {
  }

  lemma WipedProductKeeps(t: Tables, homes: Homes, account: Id)
    requires BillingInv(t) && RewardInv(t.book.ledger, t.referrals) && AtHome(t.book.ledger, homes)
    requires account in t.dir.accounts && ResolveOwner(t.dir, account).Some? && Settled(t.dir, homes)
    ensures var t' := WipedProduct(t, account);
            && BillingInv(t') && RewardInv(t'.book.ledger, t.referrals) && AtHome(t'.book.ledger, homes)
            && (forall r <- t'.book.ledger :: r.wallet in t'.book.wallets)
            && (forall e <- t'.costs :: e.wallet in t'.book.wallets)
  {
    assert Unfold(0);
    var t' := WipedProduct(t, account);
    KeptLedger(t, homes, account);
    ConsistentOutside(t.book, Doomed(t, account));
    ReservationsOutside(t.book, Doomed(t, account));
    PairedOutside(t, homes, account);
    RewardsOutside(t, account);
    assert RewardRowsClaimed(t'.book.ledger, t.referrals);
    RowsNamed(t');
  }

  lemma RowsNamed(t: Tables)
    requires RunningBalances(t.book) && EventsBacked(t.book.ledger, t.costs)
    ensures forall r <- t.book.ledger :: r.wallet in t.book.wallets
    ensures forall e <- t.costs :: e.wallet in t.book.wallets
  {
    forall e <- t.costs ensures e.wallet in t.book.wallets {
      assert Backed(t.book.ledger, e);
    }
  }

  /** Wiping an account whose owner resolves keeps every invariant of the billing and referral tables:
      each surviving wallet's balance is still the sum of its surviving rows, running balances, paired
      charges and reservations included; each reward id still names its row; and no ledger row or cost
      event names a deleted wallet. */
  lemma WipeKeepsAudit(t: Tables, homes: Homes, account: Id)
    requires Inv(t) && AtHome(t.book.ledger, homes)
    requires account in t.dir.accounts && ResolveOwner(t.dir, account).Some? && Settled(t.dir, homes)
    ensures var t' := Wiped(t, account);
            && Inv(t') && AtHome(t'.book.ledger, homes) && Settled(t'.dir, homes)
            && t'.referrals == t.referrals
            && (forall r <- t'.book.ledger :: r.wallet in t'.book.wallets)
            && (forall e <- t'.costs :: e.wallet in t'.book.wallets)
  {
    SettledAfterWipe(t.dir, homes, account);
    if HasSibling(t, account) {
      assert RunningBalances(t.book) && EventsBacked(t.book.ledger, t.costs) by { assert Unfold(0); }
      RowsNamed(t);
      FoldSame(t, Wiped(t, account));
    } else {
      WipedProductKeeps(t, homes, account);
      FoldSame(WipedProduct(t, account), Wiped(t, account));
    }
  }

  lemma FoldSame(t: Tables, t': Tables)
    requires BillingInv(t) && t'.book == t.book && t'.costs == t.costs
    ensures BillingInv(t')
  {
    assert Unfold(0);
  }

  /** Beside an active sibling of the same user and app, no wallet, ledger row, cost event or usage
      count is touched. */
  lemma SiblingProtects(t: Tables, account: Id)
    requires account in t.dir.accounts && HasSibling(t, account)
    ensures var t' := Wiped(t, account);
            && t'.book == t.book && t'.costs == t.costs && t'.usage == t.usage
            && (forall x <- t.reservations :: x !in t'.reservations ==> t.reservations[x].account == account)
  {
  }

  function RowElsewhere(app: Id): LedgerRow -> bool {
    (r: LedgerRow) => r.app != app
  }

  function CostElsewhere(app: Id): CostEvent -> bool {
    (e: CostEvent) => e.app != app
  }

  /** No ledger row or cost event of another app changes, whether or not the owner resolves. */
  lemma WipeKeepsOtherLedgers(t: Tables, account: Id)
    requires account in t.dir.accounts
    ensures var (t', app) := (Wiped(t, account), t.dir.accounts[account].app);
            && Filter(t'.book.ledger, RowElsewhere(app)) == Filter(t.book.ledger, RowElsewhere(app))
            && Filter(t'.costs, CostElsewhere(app)) == Filter(t.costs, CostElsewhere(app))
  {
    var app := t.dir.accounts[account].app;
    if !HasSibling(t, account) {
      var (doomed, preserved) := (Doomed(t, account), Preserved(t, account));
      FilterMerge(t.book.ledger, KeepRow(account, app, doomed, preserved), RowElsewhere(app), RowElsewhere(app));
      FilterMerge(t.costs, KeepCost(account, app, doomed, preserved), CostElsewhere(app), CostElsewhere(app));
    }
  }

  /** No wallet, usage count or reservation of another app changes, and none is ever added. */
  lemma WipeStaysInApp(t: Tables, account: Id)
    requires account in t.dir.accounts
    ensures var (t', app) := (Wiped(t, account), t.dir.accounts[account].app);
            && t'.book.wallets.Items <= t.book.wallets.Items
            && t'.usage.Items <= t.usage.Items
            && t'.reservations.Items <= t.reservations.Items
            && (forall w <- t.book.wallets :: t.book.wallets[w].app != app ==> w in t'.book.wallets)
            && (forall k <- t.usage :: k.app != app ==> k in t'.usage)
            && (forall x <- t.reservations :: t.reservations[x].key.app != app ==> x in t'.reservations)
  {
    if !HasSibling(t, account) {
      assert forall w <- Doomed(t, account) :: t.book.wallets[w].app == t.dir.accounts[account].app;
    }
  }
}
