/** What a wipe removes and what it leaves, row by row, said of the tables themselves. */
module WipeEffects {
  import opened Wrappers
  import opened Ledger
  import opened Tables
  import opened Filters
  import opened Wipe

  /** The owner of an account, in the order the sources are asked: an active runtime ownership, then the
      earliest active binding, then the universe the account lives in. */
  lemma OwnerIs(dir: Directory, account: Id, user: Id)
    ensures ResolveOwner(dir, account) == Some(user) <==>
            if account in dir.world.runtimeOwners then dir.world.runtimeOwners[account].user == user
            else if exists b <- dir.bindings :: b.active && b.account == account then
              exists i :: 0 <= i < |dir.bindings| && EarliestBinding(dir.bindings, account, user, i)
            else account in dir.world.residents && dir.world.residents[account].owner == user
  {
    FirstOwnerIs(dir.bindings, account);
  }

  /** The i-th binding is the first active one of the account, and names the user. */
  predicate EarliestBinding(bindings: seq<Binding>, account: Id, user: Id, i: nat)
    requires i < |bindings|
  {
    && bindings[i].active && bindings[i].account == account && bindings[i].user == user
    && forall j :: 0 <= j < i ==> !(bindings[j].active && bindings[j].account == account)
  }

  lemma {:induction false} FirstOwnerIs(bindings: seq<Binding>, account: Id)
    ensures FirstOwner(bindings, account).None? <==> forall b <- bindings :: !(b.active && b.account == account)
    ensures forall i: nat, user :: i < |bindings| && EarliestBinding(bindings, account, user, i) ==> FirstOwner(bindings, account) == Some(user)
    ensures FirstOwner(bindings, account).Some? ==>
              exists i: nat :: i < |bindings| && EarliestBinding(bindings, account, FirstOwner(bindings, account).value, i)
  {
    if bindings != [] {
      var rest := bindings[1..];
      FirstOwnerIs(rest, account);
      assert bindings == [bindings[0]] + rest;
      if bindings[0].active && bindings[0].account == account {
        assert EarliestBinding(bindings, account, bindings[0].user, 0);
      } else {
        forall i: nat, user | i < |bindings| && EarliestBinding(bindings, account, user, i)
          ensures FirstOwner(bindings, account) == Some(user)
        {
          assert EarliestBinding(rest, account, user, i - 1);
        }
        if FirstOwner(rest, account).Some? {
          var user := FirstOwner(rest, account).value;
          var i: nat :| i < |rest| && EarliestBinding(rest, account, user, i);
          assert EarliestBinding(bindings, account, user, i + 1);
        }
      }
    }
  }

  /** The other account shares the wiped one's product and owner, and is active: bound to the owner in
      the product, or living in the owner's universe. */
  ghost predicate Shares(t: Tables, account: Id, other: Id)
    requires account in t.dir.accounts
  {
    var app := t.dir.accounts[account].app;
    && other != account && other in t.dir.accounts && t.dir.accounts[other].app == app && t.dir.accounts[other].active
    && exists user :: ResolveOwner(t.dir, account) == Some(user)
         && ((exists b <- t.dir.bindings :: b.account == other && b.user == user && b.app == app && b.active)
             || (other in t.dir.world.residents && t.dir.world.residents[other].owner == user
                 && !t.dir.world.residents[other].dismissed))
  }

  lemma SiblingShares(t: Tables, account: Id)
    requires account in t.dir.accounts
    ensures HasSibling(t, account) <==> exists other :: Shares(t, account, other)
  {
    var (user, app) := (ResolveOwner(t.dir, account), t.dir.accounts[account].app);
    if user.Some? && OwnedSibling(t, account, user.value, app) {
      var b :| b in t.dir.bindings && b.user == user.value && b.account != account && b.active && b.app == app
               && b.account in t.dir.accounts && t.dir.accounts[b.account] == Account(app, true);
      assert Shares(t, account, b.account);
    } else if user.Some? && ResidentSibling(t, account, user.value, app) {
      var a :| a in t.dir.world.residents && t.dir.world.residents[a].owner == user.value && a != account
               && !t.dir.world.residents[a].dismissed && a in t.dir.accounts && t.dir.accounts[a] == Account(app, true);
      assert Shares(t, account, a);
    }
    if other :| Shares(t, account, other) {
      assert t.dir.accounts[other] == Account(app, true);
    }
  }

  /** A wallet survives exactly when an active sibling shares it, or it is of another app, or neither its
      user is the owner (the account itself when nobody owns it) nor its account is this one, or some
      relationship names one of its rows as its reward; and a surviving wallet is unchanged. */
  lemma WalletSurvives(t: Tables, account: Id, w: Id)
    requires account in t.dir.accounts && w in t.book.wallets
    ensures var (app, owner) := (t.dir.accounts[account].app, ResolveOwner(t.dir, account));
            var wallet := t.book.wallets[w];
            w in Wiped(t, account).book.wallets <==>
              || (exists other :: Shares(t, account, other))
              || wallet.app != app
              || (wallet.user != (if owner.Some? then owner.value else account) && wallet.account != account)
              || exists l <- t.book.ledger, r <- t.referrals :: l.wallet == w && t.referrals[r].rewardId == Some(l.id)
    ensures w in Wiped(t, account).book.wallets ==> Wiped(t, account).book.wallets[w] == t.book.wallets[w]
  {
    SiblingShares(t, account);
    RewardNamed(t, w);
  }

  lemma RewardNamed(t: Tables, w: Id)
    ensures Referenced(t.book.ledger, t.referrals, w) <==>
            exists l <- t.book.ledger, r <- t.referrals :: l.wallet == w && t.referrals[r].rewardId == Some(l.id)
  {
  }

  lemma NoWalletAdded(t: Tables, account: Id)
    requires account in t.dir.accounts
    ensures Wiped(t, account).book.wallets.Keys <= t.book.wallets.Keys
  {
  }

  /** The wallet stays because a relationship names one of its rows as its reward, though otherwise it
      would have gone. */
  ghost predicate KeptForReward(t: Tables, account: Id, w: Id)
    requires account in t.dir.accounts
  {
    var owner := ResolveOwner(t.dir, account);
    && w in t.book.wallets && t.book.wallets[w].app == t.dir.accounts[account].app
    && (t.book.wallets[w].user == (if owner.Some? then owner.value else account) || t.book.wallets[w].account == account)
    && exists l <- t.book.ledger, r <- t.referrals :: l.wallet == w && t.referrals[r].rewardId == Some(l.id)
  }

  /** A ledger row goes exactly when there is no active sibling, it is of the app, and its wallet goes, or
      it is the account's own in a wallet not kept for a reward. */
  lemma RowSurvives(t: Tables, account: Id, row: LedgerRow)
    requires account in t.dir.accounts && row in t.book.ledger
    ensures row !in Wiped(t, account).book.ledger <==>
            && !(exists other :: Shares(t, account, other))
            && row.app == t.dir.accounts[account].app
            && ((row.wallet in t.book.wallets && row.wallet !in Wiped(t, account).book.wallets)
                || (row.account == account && !KeptForReward(t, account, row.wallet)))
  {
    SiblingShares(t, account);
    RewardNamed(t, row.wallet);
  }

  /** .. and so does a cost event. */
  lemma CostSurvives(t: Tables, account: Id, e: CostEvent)
    requires account in t.dir.accounts && e in t.costs
    ensures e !in Wiped(t, account).costs <==>
            && !(exists other :: Shares(t, account, other))
            && e.app == t.dir.accounts[account].app
            && ((e.wallet in t.book.wallets && e.wallet !in Wiped(t, account).book.wallets)
                || (e.account == account && !KeptForReward(t, account, e.wallet)))
  {
    SiblingShares(t, account);
    RewardNamed(t, e.wallet);
  }

  /** The quota rows of the app that belong to the subject or the account go; beside a sibling only the
      account's own reservations do, and no usage count. Everything else stays as it is. */
  lemma QuotaSurvives(t: Tables, account: Id)
    requires account in t.dir.accounts
    ensures var (t', app, owner) := (Wiped(t, account), t.dir.accounts[account].app, ResolveOwner(t.dir, account));
            var subject := if owner.Some? then owner.value else account;
            var shared := exists other :: Shares(t, account, other);
            && (forall x :: x in t'.reservations <==>
                 x in t.reservations
                 && !(t.reservations[x].key.app == app
                      && (t.reservations[x].account == account || (!shared && t.reservations[x].key.subject == subject))))
            && (forall x <- t'.reservations :: t'.reservations[x] == t.reservations[x])
            && (forall k :: k in t'.usage <==>
                 k in t.usage && (shared || !(k.app == app && (k.subject == subject || t.usage[k].account == account))))
            && (forall k <- t'.usage :: t'.usage[k] == t.usage[k])
  {
    SiblingShares(t, account);
  }

  /** The account's own bindings go and it is deactivated; no relationship or review changes. */
  lemma DirectoryAfter(t: Tables, account: Id)
    requires account in t.dir.accounts
    ensures var t' := Wiped(t, account);
            && (forall b :: b in t'.dir.bindings <==> b in t.dir.bindings && b.account != account)
            && t'.dir.accounts == t.dir.accounts[account := t.dir.accounts[account].(active := false)]
            && t'.dir.world == t.dir.world && t'.referrals == t.referrals && t'.reviews == t.reviews
  {
  }
}
