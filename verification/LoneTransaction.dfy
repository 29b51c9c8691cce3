/** The interleaving model does post: a transaction running alone commits exactly the atomic posting. */
module LoneTransaction {
  import opened Wrappers
  import opened Ledger
  import opened Interleaving

  function Alone(b: Book, tx: Tx): System { System(b, map[0 := tx], []) }

  lemma Advances(b: Book, tx: Tx)
    ensures Step(Alone(b, tx), Advance(0)) == Alone(b, Next(Alone(b, tx), 0))
  {
    assert (map[0 := tx])[0 := Next(Alone(b, tx), 0)] == map[0 := Next(Alone(b, tx), 0)];
  }

  /** The five states a new posting goes through. */
  function Stage(b: Book, p: Posting, wallet: Id, created: bool, k: nat): Tx {
    var after := (if wallet in b.wallets then b.wallets[wallet].balance else 0) + p.amount;
    if k == 0 then Tx([p], [], Ready)
    else if k == 1 then Tx([p], [], Missed)
    else if k == 2 then Tx([p], [], HasWallet(wallet, created))
    else if k == 3 then Tx([p], [], Locked(wallet, created, after))
    else if k == 4 then Tx([p], [], ReadBack(wallet, created, after))
    else Tx([], [Insert(p, RowFor(p, wallet, after), created)], Ready)
  }

  lemma WalletStage(b: Book, p: Posting)
    requires Post(b, p).Ok? && !HasKey(b.ledger, p.app, p.key)
    ensures var (wallet, wallets) := EnsuredWallet(b.wallets, p.account, p.user, p.app, p.walletId).value;
            var created := ActiveWallet(b.wallets, p.user, p.app).None?;
            && Next(Alone(b, Stage(b, p, wallet, created, 1)), 0) == Stage(b, p, wallet, created, 2)
            && (created ==> wallet == p.walletId && wallet !in b.wallets) && (!created ==> wallet in b.wallets)
  {
    assert Overlay(b, []) == b;
  }

  lemma LockStage(b: Book, p: Posting)
    requires Post(b, p).Ok? && !HasKey(b.ledger, p.app, p.key)
    ensures var (wallet, wallets) := EnsuredWallet(b.wallets, p.account, p.user, p.app, p.walletId).value;
            var created := ActiveWallet(b.wallets, p.user, p.app).None?;
            Next(Alone(b, Stage(b, p, wallet, created, 2)), 0) == Stage(b, p, wallet, created, 3)
  {
    WalletStage(b, p);
    assert Overlay(b, []) == b;
  }

  lemma InsertStage(b: Book, p: Posting)
    requires Post(b, p).Ok? && !HasKey(b.ledger, p.app, p.key)
    ensures var (wallet, wallets) := EnsuredWallet(b.wallets, p.account, p.user, p.app, p.walletId).value;
            var created := ActiveWallet(b.wallets, p.user, p.app).None?;
            Next(Alone(b, Stage(b, p, wallet, created, 4)), 0) == Stage(b, p, wallet, created, 5)
  {
    assert Overlay(b, []) == b;
    assert [p][1..] == [];
  }

  lemma CommitStage(b: Book, p: Posting)
    requires Post(b, p).Ok? && !HasKey(b.ledger, p.app, p.key)
    ensures var (wallet, wallets) := EnsuredWallet(b.wallets, p.account, p.user, p.app, p.walletId).value;
            var created := ActiveWallet(b.wallets, p.user, p.app).None?;
            Step(Alone(b, Stage(b, p, wallet, created, 5)), Commit(0)).committed == Post(b, p).value.book
  {
    WalletStage(b, p);
    var w := EnsuredWallet(b.wallets, p.account, p.user, p.app, p.walletId).value.0;
    var ws := Stage(b, p, w, ActiveWallet(b.wallets, p.user, p.app).None?, 5).writes;
    assert ws[..0] == [] && Overlay(b, []) == b;
  }

  /** Where a transaction with one new posting stands after k statements. */
  lemma {:induction false} StageReached(b: Book, p: Posting, k: nat)
    requires Post(b, p).Ok? && !HasKey(b.ledger, p.app, p.key) && k <= 5
    ensures var (wallet, wallets) := EnsuredWallet(b.wallets, p.account, p.user, p.app, p.walletId).value;
            Run(System(b, map[], []), [Begin(0, [p])] + seq(k, _ => Advance(0)))
            == Alone(b, Stage(b, p, wallet, ActiveWallet(b.wallets, p.user, p.app).None?, k))
  {
    var start: seq<Action> := [Begin(0, [p])];
    if k == 0 {
      assert start + seq(0, _ => Advance(0)) == start && start[..0] == [];
    } else {
      var pre := start + seq(k - 1, _ => Advance(0));
      assert start + seq(k, _ => Advance(0)) == pre + [Advance(0)] && (pre + [Advance(0)])[..|pre|] == pre;
      StageReached(b, p, k - 1);
      var w := EnsuredWallet(b.wallets, p.account, p.user, p.app, p.walletId).value.0;
      var created := ActiveWallet(b.wallets, p.user, p.app).None?;
      Advances(b, Stage(b, p, w, created, k - 1));
      StageStep(b, p, k - 1);
    }
  }

  lemma StageStep(b: Book, p: Posting, k: nat)
    requires Post(b, p).Ok? && !HasKey(b.ledger, p.app, p.key) && k < 5
    ensures var (wallet, wallets) := EnsuredWallet(b.wallets, p.account, p.user, p.app, p.walletId).value;
            var created := ActiveWallet(b.wallets, p.user, p.app).None?;
            Next(Alone(b, Stage(b, p, wallet, created, k)), 0) == Stage(b, p, wallet, created, k + 1)
  {
    if k == 0 {
      assert Overlay(b, []) == b;
    } else if k == 1 {
      WalletStage(b, p);
    } else if k == 2 {
      LockStage(b, p);
    } else if k == 4 {
      InsertStage(b, p);
    }
  }

  /** A lone transaction with a new posting commits exactly what the atomic step posts. */
  lemma LoneTransactionPosts(b: Book, p: Posting)
    requires Post(b, p).Ok? && !HasKey(b.ledger, p.app, p.key)
    ensures Run(System(b, map[], []), [Begin(0, [p])] + seq(5, _ => Advance(0)) + [Commit(0)]).committed == Post(b, p).value.book
  {
    var pre := [Begin(0, [p])] + seq(5, _ => Advance(0));
    assert (pre + [Commit(0)])[..|pre|] == pre;
    StageReached(b, p, 5);
    CommitStage(b, p);
  }

  /** A lone transaction whose key its user has posted before commits too, and changes nothing. */
  lemma LoneTransactionReplays(b: Book, p: Posting, row: LedgerRow)
    requires Post(b, p) == Ok(Posted(b, row)) && HasKey(b.ledger, p.app, p.key)
    ensures Run(System(b, map[], []), [Begin(0, [p]), Advance(0), Commit(0)]) == System(b, map[0 := Tx([], [], Finished)], [p])
  {
    var (begun, replayed) := (Tx([p], [], Ready), Tx([], [Replay(p, row)], Ready));
    var pre: seq<Action> := [Begin(0, [p]), Advance(0)];
    assert (pre + [Commit(0)])[..2] == pre && pre[..1] == [Begin(0, [p])] && [Begin(0, [p])][..0] == [];
    assert [Begin(0, [p]), Advance(0), Commit(0)] == pre + [Commit(0)];
    assert Overlay(b, []) == b && [p][1..] == [] && [] + [Replay(p, row)] == [Replay(p, row)];
    assert Next(Alone(b, begun), 0) == replayed;
    Advances(b, begun);
    assert Run(System(b, map[], []), pre[..1]) == Alone(b, begun);
    assert replayed.writes[..0] == [] && Overlay(b, replayed.writes) == b && Requests(replayed.writes) == [p];
    assert (map[0 := replayed])[0 := Aborted(replayed)] == map[0 := Tx([], [], Finished)];
  }
}
