/** Why a statement of a posting fails or waits while others run. */
module StatementAnswers {
  import opened Wrappers
  import opened Ledger
  import opened Interleaving

  // ---- failures ----

  /** The tables as the transaction sees them: committed, with its own writes on top. */
  function Seen(s: System, t: nat): Book
    requires t in s.txs
  {
    Overlay(s.committed, s.txs[t].writes)
  }

  ghost predicate Fails(s: System, t: nat)
    requires t in s.txs
  {
    !s.txs[t].pc.Finished? && Next(s, t).pc.Finished?
  }

  /** The posting is refused on the tables the transaction sees, or its key has been taken since the lookup
      that missed it. */
  ghost predicate Refused(b: Book, tx: Tx) {
    && tx.todo != []
    && (Post(b, tx.todo[0]).Err? || (!tx.pc.Ready? && HasKey(b.ledger, tx.todo[0].app, tx.todo[0].key)))
  }

  lemma LookupRefused(b: Book, tx: Tx)
    requires tx.todo != [] && tx.pc.Ready? && Lookup(b, tx).pc.Finished?
    ensures Refused(Overlay(b, tx.writes), tx)
  {
  }

  lemma EnsureRefused(s: System, t: nat)
    requires t in s.txs && s.txs[t].pc.Missed? && s.txs[t].todo != [] && Ensure(s, t).pc.Finished?
    ensures Refused(Seen(s, t), s.txs[t])
  {
    var (b, p) := (Seen(s, t), s.txs[t].todo[0]);
    assert EnsuredWallet(b.wallets, p.account, p.user, p.app, p.walletId).Err?;
  }

  lemma UpdateRefused(s: System, t: nat)
    requires Consistent(s.committed) && t in s.txs && TxOk(s.committed, s.txs[t])
    requires s.txs[t].pc.HasWallet? && s.txs[t].todo != [] && Update(s, t).pc.Finished?
    ensures Refused(Seen(s, t), s.txs[t])
  {
    var (b, tx) := (s.committed, s.txs[t]);
    var (o, p, w) := (Seen(s, t), tx.todo[0], tx.pc.wallet);
    WritesArePosts(b, tx.writes);
    if tx.pc.created {
      CreationClear(b, tx.writes, p);
      assert ActiveWallet(o.wallets, p.user, p.app).None?;
      NothingToCover(o, p);
    } else {
      WalletAgrees(b, tx.writes, p, w);
      assert ActiveWallet(o.wallets, p.user, p.app) == Some(w);
      NotCovered(o, p, w);
    }
  }

  lemma IdTaken(b: Book, p: Posting)
    requires !FreshRow(b.ledger, p)
    ensures Post(b, p).Err? || HasKey(b.ledger, p.app, p.key)
  {
  }

  lemma NotCovered(b: Book, p: Posting, w: Id)
    requires ActiveWallet(b.wallets, p.user, p.app) == Some(w) && p.guarded && b.wallets[w].balance + p.amount < 0
    ensures Post(b, p).Err? || HasKey(b.ledger, p.app, p.key)
  {
  }

  lemma NothingToCover(b: Book, p: Posting)
    requires ActiveWallet(b.wallets, p.user, p.app).None? && p.guarded && p.amount < 0
    ensures Post(b, p).Err? || HasKey(b.ledger, p.app, p.key)
  {
  }

  lemma InsertRefused(s: System, t: nat)
    requires t in s.txs && s.txs[t].pc.ReadBack? && s.txs[t].todo != [] && InsertRow(s, t).pc.Finished?
    ensures Refused(Seen(s, t), s.txs[t])
  {
    IdTaken(Seen(s, t), s.txs[t].todo[0]);
  }

  /** In every interleaving a statement fails only where its posting would be refused on the tables its
      transaction sees at that moment, or where another transaction has committed the same key since the
      lookup. */
  lemma FailuresAreRefusals(start: Book, actions: seq<Action>, t: nat)
    requires Consistent(start)
    ensures var s := Run(System(start, map[], []), actions);
            t in s.txs && Fails(s, t) ==> Refused(Seen(s, t), s.txs[t])
  {
    var s := Run(System(start, map[], []), actions);
    EveryInterleavingIsSerial(start, actions);
    if t in s.txs && Fails(s, t) {
      match s.txs[t].pc
      case Ready => LookupRefused(s.committed, s.txs[t]);
      case Missed => EnsureRefused(s, t);
      case HasWallet(_, _) => UpdateRefused(s, t);
      case ReadBack(_, _, _) => InsertRefused(s, t);
      case _ =>
    }
  }

  // ---- waits ----

  /** The other transaction holds what the next statement needs: the row it updates, a wallet that collides
      with the one it inserts, or a row that collides with the one it inserts. */
  ghost predicate Blocks(other: Tx, tx: Tx) {
    && tx.todo != []
    && match tx.pc
       case HasWallet(wallet, _) =>
         || (exists w <- other.writes :: w.Insert? && w.row.wallet == wallet)
         || ((other.pc.Locked? || other.pc.ReadBack?) && other.pc.wallet == wallet)
       case Missed =>
         || (exists w <- other.writes :: w.Insert? && w.created && Collide(tx.todo[0], w.p))
         || (Opened(other.pc) && other.todo != [] && Collide(tx.todo[0], other.todo[0]))
       case ReadBack(_, _, _) => exists w <- other.writes :: w.Insert? && SameUnique(w.row, tx.todo[0])
       case _ => false
  }

  /** A transaction with something left to do that does not go on waits for another one that holds what it
      needs, and never for one that has ended. */
  lemma WaitsForAnother(s: System, t: nat)
    requires t in s.txs && !s.txs[t].pc.Finished? && s.txs[t].todo != [] && Next(s, t) == s.txs[t]
    ensures exists u <- s.txs :: u != t && Blocks(s.txs[u], s.txs[t]) && s.txs[u] != Tx([], [], Finished)
  {
    var tx := s.txs[t];
    match tx.pc
    case HasWallet(w, _) =>
      var u :| u in s.txs && u != t && w in RowLocks(s.txs[u]);
      assert Blocks(s.txs[u], tx);
    case Missed =>
      var u, q :| u in s.txs && u != t && q in OpenedBy(s.txs[u]) && Collide(tx.todo[0], q);
      assert Blocks(s.txs[u], tx);
    case ReadBack(_, _, _) =>
      var u, r :| u in s.txs && u != t && r in Rows(s.txs[u].writes) && SameUnique(r, tx.todo[0]);
      RowsFromWrites(s.txs[u].writes, r);
      assert Blocks(s.txs[u], tx);
    case _ =>
  }
}
