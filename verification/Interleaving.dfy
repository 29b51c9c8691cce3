/** Ledger postings as PostgreSQL READ COMMITTED transactions whose statements interleave freely.
    The result is a refinement: whatever the interleaving, the committed tables are those of the
    committed requests applied one at a time, atomically, in commit order. */
module Interleaving {
  import opened Wrappers
  import opened Text
  import opened Ledger

  /** A finished posting inside a transaction: a replay that returned an existing row, or a row the
      transaction inserted, perhaps into a wallet it created itself. */
  datatype Write =
    | Replay(p: Posting, row: LedgerRow)
    | Insert(p: Posting, row: LedgerRow, created: bool)

  /** Which statement of the current posting comes next. */
  datatype Pc =
    | Ready
    | Missed
    | HasWallet(wallet: Id, created: bool)
    | Locked(wallet: Id, created: bool, balance: int)
    | ReadBack(wallet: Id, created: bool, after: int)
    | Finished

  datatype Tx = Tx(todo: seq<Posting>, writes: seq<Write>, pc: Pc)

  /** `log` records, in commit order, the requests of the transactions that committed. */
  datatype System = System(committed: Book, txs: map<nat, Tx>, log: seq<Posting>)

  datatype Action =
    | Begin(t: nat, requests: seq<Posting>)
    | Advance(t: nat)
    | Commit(t: nat)
    | Abort(t: nat)

  // ---- what a transaction has written and what it sees ----

  function Rows(ws: seq<Write>): seq<LedgerRow> {
    if ws == [] then []
    else Rows(ws[..|ws| - 1]) + if ws[|ws| - 1].Insert? then [ws[|ws| - 1].row] else []
  }

  function Requests(ws: seq<Write>): seq<Posting> {
    if ws == [] then [] else Requests(ws[..|ws| - 1]) + [ws[|ws| - 1].p]
  }

  function NewWallet(p: Posting): Wallet { Wallet(p.account, p.user, p.app, 0, true) }

  /** A row version written by a transaction replaces the committed version as a whole. */
  function ApplyWrite(b: Book, w: Write): Book {
    if w.Replay? then b
    else
      var base := if w.row.wallet in b.wallets then b.wallets[w.row.wallet] else NewWallet(w.p);
      Book(b.wallets[w.row.wallet := base.(balance := w.row.balanceAfter)], b.ledger + [w.row])
  }

  function Overlay(b: Book, ws: seq<Write>): Book {
    if ws == [] then b else ApplyWrite(Overlay(b, ws[..|ws| - 1]), ws[|ws| - 1])
  }

  predicate Opened(pc: Pc) {
    (pc.HasWallet? || pc.Locked? || pc.ReadBack?) && pc.created
  }

  /** The wallets a statement of the transaction sees: the latest committed ones and its own. */
  function SeenWallets(b: Book, tx: Tx): map<Id, Wallet> {
    var own := Overlay(b, tx.writes).wallets;
    if Opened(tx.pc) && tx.todo != [] then own[tx.pc.wallet := NewWallet(tx.todo[0])] else own
  }

  // ---- what a transaction holds until it ends ----

  function WrittenWallets(ws: seq<Write>): set<Id> {
    set w <- ws | w.Insert? :: w.row.wallet
  }

  function RowLocks(tx: Tx): set<Id> {
    WrittenWallets(tx.writes) + if tx.pc.Locked? || tx.pc.ReadBack? then {tx.pc.wallet} else {}
  }

  /** Two wallet inserts collide on the primary key, the active (user, app) index or the account. */
  predicate Collide(p: Posting, q: Posting) {
    p.walletId == q.walletId || (p.user == q.user && p.app == q.app) || p.account == q.account
  }

  predicate CollideWith(p: Posting, id: Id, w: Wallet) {
    p.walletId == id || ActiveFor(w, p.user, p.app) || p.account == w.account
  }

  function OpenedBy(tx: Tx): set<Posting> {
    (set w <- tx.writes | w.Insert? && w.created :: w.p)
    + if Opened(tx.pc) && tx.todo != [] then {tx.todo[0]} else {}
  }

  predicate SameUnique(r: LedgerRow, p: Posting) {
    Keyed(r, p.app, p.key) || r.id == p.ledgerId
  }

  // ---- the statements ----

  function Aborted(tx: Tx): Tx { Tx([], [], Finished) }

  /** SELECT by (app, key). */
  function Lookup(b: Book, tx: Tx): Tx
    requires tx.todo != []
  {
    var p := tx.todo[0];
    if p.amount == 0 then Aborted(tx)
    else match FindKey(Overlay(b, tx.writes).ledger, p.app, p.key)
      case Some(row) =>
        if row.user != p.user then Aborted(tx)
        else Tx(tx.todo[1..], tx.writes + [Replay(p, row)], Ready)
      case None => tx.(pc := Missed)
  }

  /** INSERT .. ON CONFLICT DO NOTHING, then SELECT the active wallet. It waits for any other
      transaction that has inserted a colliding wallet and not ended yet. */
  ghost function Ensure(s: System, t: nat): Tx
    requires t in s.txs && s.txs[t].todo != []
  {
    var tx := s.txs[t];
    var p := tx.todo[0];
    var seen := SeenWallets(s.committed, tx);
    match ActiveWallet(seen, p.user, p.app)
    case Some(w) => tx.(pc := HasWallet(w, false))
    case None =>
      if exists u <- s.txs :: u != t && exists q <- OpenedBy(s.txs[u]) :: Collide(p, q) then tx
      else if exists id <- seen :: CollideWith(p, id, seen[id]) then Aborted(tx)
      else tx.(pc := HasWallet(p.walletId, true))
  }

  /** UPDATE .. SET balance = balance + amount: it waits for the row lock, then adds to the latest
      version of the row; a guarded update that would go below zero matches no row. */
  function Update(s: System, t: nat): Tx
    requires t in s.txs && s.txs[t].todo != [] && s.txs[t].pc.HasWallet?
  {
    var tx := s.txs[t];
    var (w, p) := (tx.pc.wallet, tx.todo[0]);
    var seen := SeenWallets(s.committed, tx);
    if exists u <- s.txs :: u != t && w in RowLocks(s.txs[u]) then tx
    else if w !in seen then Aborted(tx)
    else
      var balance := seen[w].balance + p.amount;
      if p.guarded && balance < 0 then Aborted(tx) else tx.(pc := Locked(w, tx.pc.created, balance))
  }

  /** INSERT the ledger row: it waits for another transaction that inserted the same key, and fails
      when the key is already there. */
  function InsertRow(s: System, t: nat): Tx
    requires t in s.txs && s.txs[t].todo != [] && s.txs[t].pc.ReadBack?
  {
    var tx := s.txs[t];
    var p := tx.todo[0];
    if exists u <- s.txs :: u != t && exists r <- Rows(s.txs[u].writes) :: SameUnique(r, p) then tx
    else if exists r <- Overlay(s.committed, tx.writes).ledger :: SameUnique(r, p) then Aborted(tx)
    else Tx(tx.todo[1..],
            tx.writes + [Insert(p, RowFor(p, tx.pc.wallet, tx.pc.after), tx.pc.created)], Ready)
  }

  ghost function Next(s: System, t: nat): Tx
    requires t in s.txs
  {
    var tx := s.txs[t];
    if tx.pc.Finished? || tx.todo == [] then tx
    else match tx.pc
      case Ready => Lookup(s.committed, tx)
      case Missed => Ensure(s, t)
      case HasWallet(_, _) => Update(s, t)
      case Locked(w, created, balance) => tx.(pc := ReadBack(w, created, balance))
      case ReadBack(_, _, _) => InsertRow(s, t)
  }

  ghost function Step(s: System, a: Action): System {
    match a
    case Begin(t, requests) =>
      if t in s.txs then s else s.(txs := s.txs[t := Tx(requests, [], Ready)])
    case Advance(t) => if t in s.txs then s.(txs := s.txs[t := Next(s, t)]) else s
    case Abort(t) => if t in s.txs then s.(txs := s.txs[t := Aborted(s.txs[t])]) else s
    case Commit(t) =>
      if t !in s.txs || s.txs[t].pc != Ready || s.txs[t].todo != [] then s
      else System(Overlay(s.committed, s.txs[t].writes), s.txs[t := Aborted(s.txs[t])],
                  s.log + Requests(s.txs[t].writes))
  }

  ghost function Run(s: System, actions: seq<Action>): System {
    if actions == [] then s else Step(Run(s, actions[..|actions| - 1]), actions[|actions| - 1])
  }

  // ---- the invariant: what each transaction's writes rely on, and what keeps them apart ----

  function Base(b: Book, wallet: Id): int {
    if wallet in b.wallets then b.wallets[wallet].balance else 0
  }

  /** No wallet in the table collides with the one this posting created. */
  ghost predicate Clear(wallets: map<Id, Wallet>, p: Posting) {
    forall id <- wallets :: !CollideWith(p, id, wallets[id])
  }

  /** The posting's wallet is a committed active wallet of its user and app, or one that this
      transaction created. */
  ghost predicate WalletOk(b: Book, ws: seq<Write>, p: Posting, wallet: Id, created: bool) {
    if created then
      && wallet == p.walletId && Clear(b.wallets, p)
      && (forall w <- ws | w.Insert? && w.created :: !Collide(p, w.p))
    else
      || (wallet in b.wallets && ActiveFor(b.wallets[wallet], p.user, p.app))
      || exists w <- ws :: w.Insert? && w.created && w.p.walletId == wallet && w.p.user == p.user && w.p.app == p.app
  }

  ghost predicate FreshRow(rows: seq<LedgerRow>, p: Posting) {
    forall r <- rows :: !SameUnique(r, p)
  }

  ghost predicate WriteOk(b: Book, ws: seq<Write>, w: Write) {
    && w.p.amount != 0
    && match w
       case Replay(p, row) =>
         Keyed(row, p.app, p.key) && row.user == p.user && (row in b.ledger || row in Rows(ws))
       case Insert(p, row, created) =>
         && row == RowFor(p, row.wallet, row.balanceAfter)
         && FreshRow(b.ledger, p) && FreshRow(Rows(ws), p)
         && WalletOk(b, ws, p, row.wallet, created)
         && row.balanceAfter == Base(b, row.wallet) + SumFor(Rows(ws), row.wallet) + p.amount
         && (p.guarded ==> row.balanceAfter >= 0)
  }

  ghost predicate WritesOk(b: Book, ws: seq<Write>) {
    forall i :: 0 <= i < |ws| ==> WriteOk(b, ws[..i], ws[i])
  }

  /** What the finished statements of the posting in progress have established. */
  ghost predicate PcOk(b: Book, tx: Tx) {
    (tx.pc.HasWallet? || tx.pc.Locked? || tx.pc.ReadBack?) ==>
      && tx.todo != [] && tx.todo[0].amount != 0
      && WalletOk(b, tx.writes, tx.todo[0], tx.pc.wallet, tx.pc.created)
      && (!tx.pc.HasWallet? ==>
            var balance := if tx.pc.Locked? then tx.pc.balance else tx.pc.after;
            && balance == Base(b, tx.pc.wallet) + SumFor(Rows(tx.writes), tx.pc.wallet) + tx.todo[0].amount
            && (tx.todo[0].guarded ==> balance >= 0))
  }

  ghost predicate TxOk(b: Book, tx: Tx) {
    WritesOk(b, tx.writes) && PcOk(b, tx) && (tx.pc.Missed? ==> tx.todo != [] && tx.todo[0].amount != 0)
  }

  /** What locks and unique indexes keep apart while both transactions are open. */
  ghost predicate Apart(tx: Tx, other: Tx) {
    && RowLocks(tx) !! RowLocks(other)
    && (forall r <- Rows(tx.writes), q <- Rows(other.writes) :: !Keyed(r, q.app, q.key) && r.id != q.id)
    && (forall p <- OpenedBy(tx), q <- OpenedBy(other) :: !Collide(p, q))
  }

  ghost predicate AllOk(b: Book, txs: map<nat, Tx>) {
    forall t <- txs :: TxOk(b, txs[t])
  }

  ghost predicate AllApart(txs: map<nat, Tx>) {
    forall t <- txs, u <- txs :: t != u ==> Apart(txs[t], txs[u])
  }

  ghost predicate TxsOk(b: Book, txs: map<nat, Tx>) {
    AllOk(b, txs) && AllApart(txs)
  }

  /** The committed tables are those of some serial history of atomic postings. */
  ghost predicate Serial(s: System, start: Book) {
    PostAll(start, s.log) == Ok(s.committed) && Consistent(s.committed)
  }

  // ---- a transaction's writes, replayed atomically ----

  lemma RowsAppend(ws: seq<Write>, w: Write)
    ensures Rows(ws + [w]) == Rows(ws) + if w.Insert? then [w.row] else []
    ensures Requests(ws + [w]) == Requests(ws) + [w.p]
    ensures forall b :: Overlay(b, ws + [w]) == ApplyWrite(Overlay(b, ws), w)
  {
    assert (ws + [w])[..|ws|] == ws;
  }

  lemma WritesOkPrefix(b: Book, ws: seq<Write>)
    requires WritesOk(b, ws) && ws != []
    ensures WritesOk(b, ws[..|ws| - 1]) && WriteOk(b, ws[..|ws| - 1], ws[|ws| - 1])
  {
    var pre := ws[..|ws| - 1];
    forall i | 0 <= i < |pre| ensures WriteOk(b, pre[..i], pre[i]) {
      assert pre[..i] == ws[..i] && pre[i] == ws[i];
    }
  }

  lemma WritesOkAppend(b: Book, ws: seq<Write>, w: Write)
    requires WritesOk(b, ws) && WriteOk(b, ws, w)
    ensures WritesOk(b, ws + [w])
  {
    forall i | 0 <= i <= |ws| ensures WriteOk(b, (ws + [w])[..i], (ws + [w])[i]) {
      assert (ws + [w])[..i] == if i < |ws| then ws[..i] else ws;
    }
  }

  /** The wallet as committed, or as this transaction created it. */
  ghost predicate Origin(b: Book, ws: seq<Write>, id: Id, w: Wallet) {
    if id in b.wallets then w == b.wallets[id].(balance := w.balance)
    else exists x <- ws :: x.Insert? && x.created && x.p.walletId == id && w == NewWallet(x.p).(balance := w.balance)
  }

  lemma {:induction false} OverlayLedger(b: Book, ws: seq<Write>)
    ensures Overlay(b, ws).ledger == b.ledger + Rows(ws)
    ensures b.wallets.Keys <= Overlay(b, ws).wallets.Keys
    ensures forall w <- ws :: w.Insert? ==> w.row.wallet in Overlay(b, ws).wallets
  {
    if ws != [] {
      var pre := ws[..|ws| - 1];
      assert ws == pre + [ws[|ws| - 1]];
      OverlayLedger(b, pre);
    }
  }

  lemma {:induction false} OverlayOrigin(b: Book, ws: seq<Write>, id: Id)
    requires WritesOk(b, ws) && id in Overlay(b, ws).wallets
    ensures Origin(b, ws, id, Overlay(b, ws).wallets[id])
  {
    if ws != [] {
      var (pre, w) := (ws[..|ws| - 1], ws[|ws| - 1]);
      assert ws == pre + [w];
      WritesOkPrefix(b, ws);
      if id in Overlay(b, pre).wallets {
        OverlayOrigin(b, pre, id);
      } else {
        OverlayLedger(b, pre);
        assert w in ws && w.Insert? && w.row.wallet == id && w.created;
      }
    }
  }

  lemma {:induction false} OverlayBalance(b: Book, ws: seq<Write>, id: Id)
    requires WritesOk(b, ws) && id in Overlay(b, ws).wallets
    ensures Overlay(b, ws).wallets[id].balance == Base(b, id) + SumFor(Rows(ws), id)
  {
    if ws != [] {
      var (pre, w) := (ws[..|ws| - 1], ws[|ws| - 1]);
      WritesOkPrefix(b, ws);
      if w.Insert? {
        SumForAppend(Rows(pre), w.row, id);
      }
      assert w.Replay? ==> Rows(ws) == Rows(pre);
      if w.Replay? || w.row.wallet != id {
        OverlayBalance(b, pre, id);
      }
    }
  }

  lemma {:induction false} RowsFromWrites(ws: seq<Write>, r: LedgerRow)
    requires r in Rows(ws)
    ensures exists w <- ws :: w.Insert? && w.row == r
  {
    var (pre, w) := (ws[..|ws| - 1], ws[|ws| - 1]);
    assert w in ws && forall x <- pre :: x in ws;
    if r in Rows(pre) {
      RowsFromWrites(pre, r);
    }
  }

  /** Nothing the transaction sees collides with a wallet it is about to create. */
  lemma CreationClear(b: Book, pre: seq<Write>, p: Posting)
    requires WritesOk(b, pre) && WalletOk(b, pre, p, p.walletId, true)
    ensures Clear(Overlay(b, pre).wallets, p)
  {
    var o := Overlay(b, pre);
    forall id <- o.wallets ensures !CollideWith(p, id, o.wallets[id]) {
      OverlayOrigin(b, pre, id);
    }
  }

  /** A wallet the transaction created stays its own, whatever balance it has reached. */
  lemma {:induction false} CreatedStays(b: Book, ws: seq<Write>, x: Write)
    requires WritesOk(b, ws) && x in ws && x.Insert? && x.created
    ensures var o := Overlay(b, ws).wallets;
            x.p.walletId in o && o[x.p.walletId] == NewWallet(x.p).(balance := o[x.p.walletId].balance)
  {
    var (pre, w) := (ws[..|ws| - 1], ws[|ws| - 1]);
    assert ws == pre + [w];
    WritesOkPrefix(b, ws);
    if x in pre {
      CreatedStays(b, pre, x);
      RewriteKeepsOwner(Overlay(b, pre), w, x.p.walletId);
    } else {
      CreationClear(b, pre, x.p);
      assert x.p.walletId !in Overlay(b, pre).wallets;
    }
  }

  lemma RewriteKeepsOwner(b: Book, w: Write, id: Id)
    requires id in b.wallets
    ensures id in ApplyWrite(b, w).wallets
    ensures var after := ApplyWrite(b, w).wallets[id]; after == b.wallets[id].(balance := after.balance)
  {
  }

  /** The wallet an insert used is the one an atomic posting would find. */
  lemma WalletAgrees(b: Book, pre: seq<Write>, p: Posting, wallet: Id)
    requires WritesOk(b, pre) && WalletOk(b, pre, p, wallet, false)
    ensures wallet in Overlay(b, pre).wallets && ActiveFor(Overlay(b, pre).wallets[wallet], p.user, p.app)
  {
    if wallet in b.wallets {
      OverlayLedger(b, pre);
      OverlayOrigin(b, pre, wallet);
    } else {
      var x :| x in pre && x.Insert? && x.created && x.p.walletId == wallet && x.p.user == p.user && x.p.app == p.app;
      CreatedStays(b, pre, x);
    }
  }

  lemma UniqueKey(rows: seq<LedgerRow>, app: Id, key: Key, r: LedgerRow)
    requires UniqueRows(rows) && r in rows && Keyed(r, app, key)
    ensures FindKey(rows, app, key) == Some(r)
  {
    var f := FindKey(rows, app, key).value;
    var i :| 0 <= i < |rows| && rows[i] == f;
    var j :| 0 <= j < |rows| && rows[j] == r;
    if i < j { assert !Keyed(rows[j], rows[i].app, rows[i].key); }
    if j < i { assert !Keyed(rows[i], rows[j].app, rows[j].key); }
  }

  /** An insert into a wallet the transaction created is what the atomic posting does. */
  lemma CreatingInsertIsPost(b: Book, pre: seq<Write>, w: Write)
    requires w.Insert? && w.created && WritesOk(b, pre) && WriteOk(b, pre, w)
    ensures Post(Overlay(b, pre), w.p) == Ok(Posted(ApplyWrite(Overlay(b, pre), w), w.row))
  {
    var (o, p) := (Overlay(b, pre), w.p);
    OverlayLedger(b, pre);
    CreationClear(b, pre, p);
    assert p.walletId !in o.wallets && p.walletId !in b.wallets;
    NoRowsNoSum(Rows(pre), p.walletId) by {
      forall r <- Rows(pre) ensures r.wallet != p.walletId {
        RowsFromWrites(pre, r);
      }
    }
    PostIntoNew(o, p);
  }

  lemma PostIntoNew(o: Book, p: Posting)
    requires Clear(o.wallets, p) && FreshRow(o.ledger, p) && p.amount != 0 && (p.guarded ==> p.amount >= 0)
    ensures var row := RowFor(p, p.walletId, p.amount);
            Post(o, p) == Ok(Posted(ApplyWrite(o, Insert(p, row, true)), row))
  {
    assert ActiveWallet(o.wallets, p.user, p.app).None?;
    assert p.walletId !in o.wallets;
    var b' := o.(wallets := o.wallets[p.walletId := NewWallet(p)]);
    assert Post(o, p) == Ok(AddRow(b', p, p.walletId));
    var row := RowFor(p, p.walletId, p.amount);
    assert AddRow(b', p, p.walletId).row == row;
    assert AddRow(b', p, p.walletId).book.wallets == ApplyWrite(o, Insert(p, row, true)).wallets;
  }

  /** An insert into an existing wallet is what the atomic posting does. */
  lemma InsertIsPost(b: Book, pre: seq<Write>, w: Write)
    requires w.Insert? && !w.created && WritesOk(b, pre) && WriteOk(b, pre, w) && Indexed(Overlay(b, pre))
    ensures Post(Overlay(b, pre), w.p) == Ok(Posted(ApplyWrite(Overlay(b, pre), w), w.row))
  {
    OverlayLedger(b, pre);
    WalletAgrees(b, pre, w.p, w.row.wallet);
    OverlayBalance(b, pre, w.row.wallet);
    PostIntoExisting(Overlay(b, pre), w);
  }

  lemma PostIntoExisting(o: Book, w: Write)
    requires w.Insert? && Indexed(o) && FreshRow(o.ledger, w.p) && w.p.amount != 0
    requires w.row.wallet in o.wallets && ActiveFor(o.wallets[w.row.wallet], w.p.user, w.p.app)
    requires w.row == RowFor(w.p, w.row.wallet, o.wallets[w.row.wallet].balance + w.p.amount)
    requires w.p.guarded ==> w.row.balanceAfter >= 0
    ensures Post(o, w.p) == Ok(Posted(ApplyWrite(o, w), w.row))
  {
    assert ActiveWallet(o.wallets, w.p.user, w.p.app) == Some(w.row.wallet);
    assert o.(wallets := o.wallets) == o;
  }

  /** Each write is exactly what the atomic posting does on the state the writes before it left. */
  lemma WriteIsPost(b: Book, pre: seq<Write>, w: Write)
    requires WritesOk(b, pre) && WriteOk(b, pre, w) && Indexed(Overlay(b, pre))
    ensures Post(Overlay(b, pre), w.p) == Ok(Posted(ApplyWrite(Overlay(b, pre), w), w.row))
  {
    if w.Replay? {
      OverlayLedger(b, pre);
      UniqueKey(Overlay(b, pre).ledger, w.p.app, w.p.key, w.row);
    } else if w.created {
      CreatingInsertIsPost(b, pre, w);
    } else {
      InsertIsPost(b, pre, w);
    }
  }

  /** A transaction's effect on the committed tables is its requests posted atomically, in order. */
  lemma {:induction false} WritesArePosts(b: Book, ws: seq<Write>)
    requires Consistent(b) && WritesOk(b, ws)
    ensures PostAll(b, Requests(ws)) == Ok(Overlay(b, ws)) && Consistent(Overlay(b, ws))
  {
    if ws != [] {
      var (pre, w) := (ws[..|ws| - 1], ws[|ws| - 1]);
      WritesOkPrefix(b, ws);
      WritesArePosts(b, pre);
      assert Requests(ws)[..|Requests(ws)| - 1] == Requests(pre);
      WriteIsPost(b, pre, w);
      PostConsistent(Overlay(b, pre), w.p);
    }
  }

  // ---- each statement keeps the invariant ----

  lemma LookupOk(b: Book, tx: Tx)
    requires TxOk(b, tx) && tx.pc.Ready? && tx.todo != []
    ensures TxOk(b, Lookup(b, tx))
    ensures RowLocks(Lookup(b, tx)) <= RowLocks(tx) && OpenedBy(Lookup(b, tx)) <= OpenedBy(tx)
    ensures forall r <- Rows(Lookup(b, tx).writes) :: r in Rows(tx.writes)
  {
    var p := tx.todo[0];
    OverlayLedger(b, tx.writes);
    var found := FindKey(Overlay(b, tx.writes).ledger, p.app, p.key);
    if p.amount != 0 && found.Some? && found.value.user == p.user {
      WritesOkAppend(b, tx.writes, Replay(p, found.value));
      RowsAppend(tx.writes, Replay(p, found.value));
    }
  }

  lemma EnsureOk(s: System, t: nat)
    requires t in s.txs && TxOk(s.committed, s.txs[t]) && s.txs[t].pc.Missed?
    ensures TxOk(s.committed, Ensure(s, t))
  {
    var (b, tx) := (s.committed, s.txs[t]);
    var p := tx.todo[0];
    var seen := Overlay(b, tx.writes).wallets;
    match ActiveWallet(seen, p.user, p.app)
    case Some(w) =>
      OverlayOrigin(b, tx.writes, w);
    case None =>
      if Ensure(s, t).pc.HasWallet? {
        forall id <- b.wallets ensures !CollideWith(p, id, b.wallets[id]) {
          OverlayLedger(b, tx.writes);
          OverlayOrigin(b, tx.writes, id);
          assert !CollideWith(p, id, seen[id]);
        }
        forall w <- tx.writes | w.Insert? && w.created ensures !Collide(p, w.p) {
          CreatedStays(b, tx.writes, w);
          assert !CollideWith(p, w.p.walletId, seen[w.p.walletId]);
        }
      }
  }

  lemma UpdateOk(s: System, t: nat)
    requires t in s.txs && TxOk(s.committed, s.txs[t]) && s.txs[t].pc.HasWallet?
    ensures TxOk(s.committed, Update(s, t))
  {
    var (b, tx) := (s.committed, s.txs[t]);
    var (w, ws) := (tx.pc.wallet, tx.writes);
    OverlayLedger(b, ws);
    if tx.pc.created {
      CreationClear(b, ws, tx.todo[0]);
      assert w !in Overlay(b, ws).wallets;
      NoRowsNoSum(Rows(ws), w) by {
        forall r <- Rows(ws) ensures r.wallet != w {
          RowsFromWrites(ws, r);
        }
      }
    } else {
      WalletAgrees(b, ws, tx.todo[0], w);
      OverlayBalance(b, ws, w);
    }
  }

  lemma InsertOk(s: System, t: nat)
    requires t in s.txs && TxOk(s.committed, s.txs[t]) && s.txs[t].pc.ReadBack?
    ensures TxOk(s.committed, InsertRow(s, t))
  {
    var (b, tx) := (s.committed, s.txs[t]);
    if InsertRow(s, t).pc.Ready? {
      var p := tx.todo[0];
      var w := Insert(p, RowFor(p, tx.pc.wallet, tx.pc.after), tx.pc.created);
      OverlayLedger(b, tx.writes);
      assert FreshRow(b.ledger, p) && FreshRow(Rows(tx.writes), p) by {
        forall r | r in b.ledger || r in Rows(tx.writes) ensures !SameUnique(r, p) {
          assert r in Overlay(b, tx.writes).ledger;
        }
      }
      WritesOkAppend(b, tx.writes, w);
    }
  }

  lemma NextOk(s: System, t: nat)
    requires t in s.txs && TxOk(s.committed, s.txs[t])
    ensures TxOk(s.committed, Next(s, t))
  {
    var tx := s.txs[t];
    if !tx.pc.Finished? && tx.todo != [] {
      match tx.pc
      case Ready => LookupOk(s.committed, tx);
      case Missed => EnsureOk(s, t);
      case HasWallet(_, _) => UpdateOk(s, t);
      case Locked(_, _, _) =>
      case ReadBack(_, _, _) => InsertOk(s, t);
    }
  }

  lemma EnsureApart(s: System, t: nat, u: nat)
    requires t in s.txs && u in s.txs && t != u && s.txs[t].pc.Missed? && s.txs[t].todo != []
    requires Apart(s.txs[t], s.txs[u])
    ensures Apart(Ensure(s, t), s.txs[u])
  {
    var (tx, tx') := (s.txs[t], Ensure(s, t));
    if tx'.pc.HasWallet? && tx'.pc.created {
      assert OpenedBy(tx') == OpenedBy(tx) + {tx.todo[0]};
    }
  }

  lemma UpdateApart(s: System, t: nat, u: nat)
    requires t in s.txs && u in s.txs && t != u && s.txs[t].pc.HasWallet? && s.txs[t].todo != []
    requires Apart(s.txs[t], s.txs[u])
    ensures Apart(Update(s, t), s.txs[u])
  {
    var (tx, tx') := (s.txs[t], Update(s, t));
    if tx'.pc.Locked? {
      assert RowLocks(tx') == RowLocks(tx) + {tx.pc.wallet};
      assert OpenedBy(tx') == OpenedBy(tx);
    }
  }

  lemma AppendClaims(tx: Tx, w: Write, rest: seq<Posting>)
    requires w.Insert? && tx.pc.ReadBack? && tx.todo != []
    requires w == Insert(tx.todo[0], RowFor(tx.todo[0], tx.pc.wallet, tx.pc.after), tx.pc.created)
    ensures var tx' := Tx(rest, tx.writes + [w], Ready);
            && RowLocks(tx') == RowLocks(tx) && OpenedBy(tx') == OpenedBy(tx)
            && Rows(tx'.writes) == Rows(tx.writes) + [w.row]
  {
    var ws := tx.writes + [w];
    RowsAppend(tx.writes, w);
    assert forall x :: x in ws <==> x in tx.writes || x == w;
    assert WrittenWallets(ws) == WrittenWallets(tx.writes) + {w.row.wallet};
    assert (set x <- ws | x.Insert? && x.created :: x.p)
        == (set x <- tx.writes | x.Insert? && x.created :: x.p) + if w.created then {w.p} else {};
  }

  lemma InsertApart(s: System, t: nat, u: nat)
    requires t in s.txs && u in s.txs && t != u && s.txs[t].pc.ReadBack? && s.txs[t].todo != []
    requires Apart(s.txs[t], s.txs[u])
    ensures Apart(InsertRow(s, t), s.txs[u])
  {
    var (tx, tx') := (s.txs[t], InsertRow(s, t));
    if tx'.pc.Ready? {
      AppendClaims(tx, tx'.writes[|tx.writes|], tx.todo[1..]);
    }
  }

  /** What a statement newly claims, no other open transaction holds: that is what it waits for. */
  lemma NextApart(s: System, t: nat, u: nat)
    requires t in s.txs && u in s.txs && t != u
    requires TxOk(s.committed, s.txs[t]) && Apart(s.txs[t], s.txs[u])
    ensures Apart(Next(s, t), s.txs[u])
  {
    var tx := s.txs[t];
    if !tx.pc.Finished? && tx.todo != [] {
      match tx.pc
      case Ready => LookupOk(s.committed, tx);
      case Missed => EnsureApart(s, t, u);
      case HasWallet(_, _) => UpdateApart(s, t, u);
      case Locked(w, created, balance) =>
        assert RowLocks(tx.(pc := ReadBack(w, created, balance))) == RowLocks(tx);
      case ReadBack(_, _, _) => InsertApart(s, t, u);
    }
  }

  lemma ApartSym(tx: Tx, other: Tx)
    requires Apart(tx, other)
    ensures Apart(other, tx)
  {
    forall p <- OpenedBy(other), q <- OpenedBy(tx) ensures !Collide(p, q) {
      assert !Collide(q, p);
    }
    forall r <- Rows(other.writes), q <- Rows(tx.writes) ensures !Keyed(r, q.app, q.key) && r.id != q.id {
      assert !Keyed(q, r.app, r.key) && q.id != r.id;
    }
  }

  // ---- a commit does not disturb the transactions still open ----

  /** Everything an open transaction relies on reads the same in both tables. */
  ghost predicate Undisturbed(b: Book, b': Book, tx: Tx) {
    && (forall r <- b.ledger :: r in b'.ledger)
    && (forall r <- b'.ledger :: r in b.ledger || forall q <- Rows(tx.writes) :: !Keyed(r, q.app, q.key) && r.id != q.id)
    && (forall w <- RowLocks(tx) :: Base(b', w) == Base(b, w))
    && (forall p <- OpenedBy(tx) :: Clear(b'.wallets, p))
    && (forall id <- b.wallets :: id in b'.wallets && b'.wallets[id] == b.wallets[id].(balance := b'.wallets[id].balance))
  }

  lemma {:induction false} InsertedRow(ws: seq<Write>, w: Write)
    requires w in ws && w.Insert?
    ensures w.row in Rows(ws)
  {
    if w != ws[|ws| - 1] {
      InsertedRow(ws[..|ws| - 1], w);
    }
  }

  lemma WriteUndisturbed(b: Book, b': Book, tx: Tx, i: nat)
    requires i < |tx.writes| && WriteOk(b, tx.writes[..i], tx.writes[i]) && Undisturbed(b, b', tx)
    ensures WriteOk(b', tx.writes[..i], tx.writes[i])
  {
    var w := tx.writes[i];
    assert w in tx.writes;
    if w.Insert? {
      InsertedRow(tx.writes, w);
      assert w.row.wallet in RowLocks(tx);
      assert w.created ==> w.p in OpenedBy(tx);
      forall r <- b'.ledger ensures !SameUnique(r, w.p) {
        if r !in b.ledger {
          assert !Keyed(r, w.row.app, w.row.key) && r.id != w.row.id;
        }
      }
    }
  }

  lemma TxUndisturbed(b: Book, b': Book, tx: Tx)
    requires TxOk(b, tx) && Undisturbed(b, b', tx)
    ensures TxOk(b', tx)
  {
    forall i | 0 <= i < |tx.writes| ensures WriteOk(b', tx.writes[..i], tx.writes[i]) {
      WriteUndisturbed(b, b', tx, i);
    }
  }

  lemma CreationUndisturbedAt(b: Book, tx: Tx, other: Tx, p: Posting, id: Id)
    requires WritesOk(b, tx.writes) && Clear(b.wallets, p) && Apart(tx, other) && p in OpenedBy(other)
    requires id in Overlay(b, tx.writes).wallets
    ensures !CollideWith(p, id, Overlay(b, tx.writes).wallets[id])
  {
    var b' := Overlay(b, tx.writes);
    OverlayOrigin(b, tx.writes, id);
    if id in b.wallets {
      assert !CollideWith(p, id, b.wallets[id]);
    } else {
      var x :| x in tx.writes && x.Insert? && x.created && x.p.walletId == id
               && b'.wallets[id] == NewWallet(x.p).(balance := b'.wallets[id].balance);
      assert x.p in OpenedBy(tx);
      assert !Collide(x.p, p);
    }
  }

  lemma CreationUndisturbed(b: Book, tx: Tx, other: Tx, p: Posting)
    requires WritesOk(b, tx.writes) && TxOk(b, other) && Apart(tx, other) && p in OpenedBy(other)
    ensures Clear(Overlay(b, tx.writes).wallets, p)
  {
    OpenedClear(b, other, p);
    forall id <- Overlay(b, tx.writes).wallets ensures !CollideWith(p, id, Overlay(b, tx.writes).wallets[id]) {
      CreationUndisturbedAt(b, tx, other, p, id);
    }
  }

  lemma CommitUndisturbed(b: Book, tx: Tx, other: Tx)
    requires WritesOk(b, tx.writes) && TxOk(b, other) && Apart(tx, other)
    ensures Undisturbed(b, Overlay(b, tx.writes), other)
  {
    var b' := Overlay(b, tx.writes);
    OverlayLedger(b, tx.writes);
    forall id <- b.wallets ensures b'.wallets[id] == b.wallets[id].(balance := b'.wallets[id].balance) {
      OverlayOrigin(b, tx.writes, id);
    }
    forall p <- OpenedBy(other) ensures Clear(b'.wallets, p) {
      CreationUndisturbed(b, tx, other, p);
    }
    forall w <- RowLocks(other) ensures Base(b', w) == Base(b, w) {
      LockedBase(b, tx, other, w);
    }
  }

  /** A wallet another transaction created collides with nothing committed. */
  lemma OpenedClear(b: Book, tx: Tx, p: Posting)
    requires TxOk(b, tx) && p in OpenedBy(tx)
    ensures Clear(b.wallets, p)
  {
    if !(Opened(tx.pc) && p == tx.todo[0]) {
      var w :| w in tx.writes && w.Insert? && w.created && w.p == p;
      var i :| 0 <= i < |tx.writes| && tx.writes[i] == w;
      assert WriteOk(b, tx.writes[..i], tx.writes[i]);
    }
  }

  /** Nobody else's commit moves a balance the transaction has locked. */
  lemma LockedBase(b: Book, tx: Tx, other: Tx, w: Id)
    requires WritesOk(b, tx.writes) && TxOk(b, other) && Apart(tx, other) && w in RowLocks(other)
    ensures Base(Overlay(b, tx.writes), w) == Base(b, w)
  {
    var b' := Overlay(b, tx.writes);
    OverlayLedger(b, tx.writes);
    if w in b'.wallets {
      OverlayBalance(b, tx.writes, w);
      NoRowsNoSum(Rows(tx.writes), w) by {
        forall r <- Rows(tx.writes) ensures r.wallet != w {
          RowsFromWrites(tx.writes, r);
          assert r.wallet in RowLocks(tx);
        }
      }
    }
  }

  // ---- main results ----

  /** One transaction's new state can replace its old one when it is kept apart from the others. */
  lemma ReplaceApart(txs: map<nat, Tx>, t: nat, tx': Tx)
    requires AllApart(txs)
    requires forall u <- txs :: u != t ==> Apart(tx', txs[u])
    ensures AllApart(txs[t := tx'])
  {
    forall u <- txs | u != t ensures Apart(txs[u], tx') {
      ApartSym(tx', txs[u]);
    }
  }

  lemma ReplaceTx(b: Book, txs: map<nat, Tx>, t: nat, tx': Tx)
    requires TxsOk(b, txs) && TxOk(b, tx')
    requires forall u <- txs :: u != t ==> Apart(tx', txs[u])
    ensures TxsOk(b, txs[t := tx'])
  {
    ReplaceApart(txs, t, tx');
  }

  lemma CommitKeepsOne(b: Book, tx: Tx, other: Tx)
    requires TxOk(b, tx) && TxOk(b, other) && Apart(tx, other)
    ensures TxOk(Overlay(b, tx.writes), other)
  {
    CommitUndisturbed(b, tx, other);
    TxUndisturbed(b, Overlay(b, tx.writes), other);
  }

  lemma AbortedOk(b: Book, tx: Tx)
    ensures TxOk(b, Aborted(tx)) && forall other :: Apart(Aborted(tx), other)
  {
  }

  lemma CommitKeepsTxs(b: Book, txs: map<nat, Tx>, t: nat)
    requires TxsOk(b, txs) && t in txs
    ensures TxsOk(Overlay(b, txs[t].writes), txs[t := Aborted(txs[t])])
  {
    var b' := Overlay(b, txs[t].writes);
    var txs' := txs[t := Aborted(txs[t])];
    AbortedOk(b', txs[t]);
    ReplaceApart(txs, t, Aborted(txs[t]));
    forall u <- txs' ensures TxOk(b', txs'[u]) {
      if u != t {
        assert Apart(txs[t], txs[u]);
        CommitKeepsOne(b, txs[t], txs[u]);
      }
    }
  }

  lemma AdvanceKeepsTxs(s: System, t: nat)
    requires TxsOk(s.committed, s.txs) && t in s.txs
    ensures TxsOk(s.committed, s.txs[t := Next(s, t)])
  {
    NextOk(s, t);
    forall u <- s.txs | u != t ensures Apart(Next(s, t), s.txs[u]) {
      NextApart(s, t, u);
    }
    ReplaceTx(s.committed, s.txs, t, Next(s, t));
  }

  lemma BeginKeepsTxs(s: System, t: nat, requests: seq<Posting>)
    requires TxsOk(s.committed, s.txs) && t !in s.txs
    ensures TxsOk(s.committed, s.txs[t := Tx(requests, [], Ready)])
  {
    ReplaceTx(s.committed, s.txs, t, Tx(requests, [], Ready));
  }

  lemma AbortKeepsTxs(s: System, t: nat)
    requires TxsOk(s.committed, s.txs) && t in s.txs
    ensures TxsOk(s.committed, s.txs[t := Aborted(s.txs[t])])
  {
    ReplaceTx(s.committed, s.txs, t, Aborted(s.txs[t]));
  }

  lemma StepKeepsTxs(s: System, a: Action)
    requires TxsOk(s.committed, s.txs)
    ensures TxsOk(Step(s, a).committed, Step(s, a).txs)
  {
    match a
    case Begin(t, requests) => if t !in s.txs { BeginKeepsTxs(s, t, requests); }
    case Abort(t) => if t in s.txs { AbortKeepsTxs(s, t); }
    case Advance(t) => if t in s.txs { AdvanceKeepsTxs(s, t); }
    case Commit(t) => if t in s.txs { CommitKeepsTxs(s.committed, s.txs, t); }
  }

  lemma StepKeepsSerial(s: System, a: Action, start: Book)
    requires Serial(s, start) && TxsOk(s.committed, s.txs)
    ensures Serial(Step(s, a), start)
  {
    if a.Commit? && a.t in s.txs && s.txs[a.t].pc == Ready && s.txs[a.t].todo == [] {
      WritesArePosts(s.committed, s.txs[a.t].writes);
      PostAllConcat(start, s.log, Requests(s.txs[a.t].writes));
    }
  }

  /** In every interleaving the committed tables equal some serial history: the requests of the
      committed transactions, posted one at a time and atomically, in commit order. */
  lemma {:induction false} EveryInterleavingIsSerial(start: Book, actions: seq<Action>)
    requires Consistent(start)
    ensures var s := Run(System(start, map[], []), actions);
            Serial(s, start) && TxsOk(s.committed, s.txs)
  {
    if actions != [] {
      var s := Run(System(start, map[], []), actions[..|actions| - 1]);
      EveryInterleavingIsSerial(start, actions[..|actions| - 1]);
      StepKeepsTxs(s, actions[|actions| - 1]);
      StepKeepsSerial(s, actions[|actions| - 1], start);
    }
  }

  /** So every wallet's committed balance is the sum of its ledger rows, each row's `balanceAfter` is
      the prefix sum in commit order, at most one row exists per (app, key), and the ledger only grows. */
  lemma EveryInterleavingIsConsistent(start: Book, actions: seq<Action>)
    requires Consistent(start)
    ensures var end := Run(System(start, map[], []), actions).committed;
            && (forall w <- end.wallets :: end.wallets[w].balance == SumFor(end.ledger, w))
            && (forall i :: 0 <= i < |end.ledger| ==>
                 end.ledger[i].balanceAfter == SumFor(end.ledger[..i + 1], end.ledger[i].wallet))
            && (forall i, j :: 0 <= i < j < |end.ledger| ==> !Keyed(end.ledger[j], end.ledger[i].app, end.ledger[i].key))
            && start.ledger <= end.ledger
  {
    EveryInterleavingIsSerial(start, actions);
    PostAllConsistent(start, Run(System(start, map[], []), actions).log);
  }

  /** Concurrent guarded debits never overdraw: when every committed request is a credit or guarded,
      no committed balance is negative. */
  lemma EveryInterleavingStaysCovered(start: Book, actions: seq<Action>)
    requires Consistent(start) && NoOverdraft(start)
    requires forall p <- Run(System(start, map[], []), actions).log :: Covered(p)
    ensures NoOverdraft(Run(System(start, map[], []), actions).committed)
  {
    EveryInterleavingIsSerial(start, actions);
    CoveredNeverOverdraws(start, Run(System(start, map[], []), actions).log);
  }
}
