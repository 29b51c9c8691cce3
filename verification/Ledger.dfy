/** Wallets and their append-only ledger, and one posting as a single atomic step. */
module Ledger {
  import opened Wrappers
  import opened Text

  datatype Wallet = Wallet(account: Id, user: Id, app: Id, balance: int, active: bool)

  datatype Entry = Credit | Debit

  /** The source_type column: the values the code itself writes, or any other text. */
  datatype Source =
    | FixedReservation
    | FixedReservationRelease
    | UsageCharge
    | ImageCharge
    | ReferralReward
    | Other(text: string)

  datatype LedgerRow = LedgerRow(
    id: Id, wallet: Id, account: Id, user: Id, app: Id, entry: Entry, source: Source,
    sourceId: Option<string>, amount: int, balanceAfter: int, key: Key)

  datatype Book = Book(wallets: map<Id, Wallet>, ledger: seq<LedgerRow>)

  /** One posting request whose billing scope (user, app) is already resolved. `walletId` and
      `ledgerId` are the ids `_new_id` would give the rows it inserts. A guarded posting is refused
      when it would take the balance below zero (the conditional UPDATE of a reservation). */
  datatype Posting = Posting(
    account: Id, user: Id, app: Id, amount: int, entry: Entry, source: Source,
    sourceId: Option<string>, key: Key, guarded: bool, walletId: Id, ledgerId: Id)

  datatype Posted = Posted(book: Book, row: LedgerRow)

  // ---- queries ----

  predicate Keyed(r: LedgerRow, app: Id, key: Key) {
    r.app == app && r.key == key
  }

  predicate HasKey(rows: seq<LedgerRow>, app: Id, key: Key) {
    exists r <- rows :: Keyed(r, app, key)
  }

  /** SELECT * FROM entitlement_ledger WHERE app_id=? AND idempotency_key=? */
  function FindKey(rows: seq<LedgerRow>, app: Id, key: Key): (r: Option<LedgerRow>)
    ensures r.Some? <==> HasKey(rows, app, key)
    ensures r.Some? ==> r.value in rows && Keyed(r.value, app, key)
  {
    if rows == [] then None
    else if Keyed(rows[0], app, key) then Some(rows[0])
    else
      assert rows == [rows[0]] + rows[1..];
      FindKey(rows[1..], app, key)
  }

  predicate ActiveFor(w: Wallet, user: Id, app: Id) {
    w.active && w.user == user && w.app == app
  }

  /** The active wallet of (user, app); the partial unique index leaves at most one. */
  ghost function ActiveWallet(wallets: map<Id, Wallet>, user: Id, app: Id): (r: Option<Id>)
    ensures r.Some? ==> r.value in wallets && ActiveFor(wallets[r.value], user, app)
    ensures r.None? ==> forall w <- wallets :: !ActiveFor(wallets[w], user, app)
  {
    if exists w <- wallets :: ActiveFor(wallets[w], user, app)
    then var w :| w in wallets && ActiveFor(wallets[w], user, app); Some(w)
    else None
  }

  /** The balance of the active wallet of (user, app), counting no wallet as zero. */
  ghost function BalanceOf(b: Book, user: Id, app: Id): int {
    var w := ActiveWallet(b.wallets, user, app);
    if w.Some? then b.wallets[w.value].balance else 0
  }

  /** The sum of a wallet's ledger amounts. */
  function SumFor(rows: seq<LedgerRow>, wallet: Id): int {
    if rows == [] then 0
    else SumFor(rows[..|rows| - 1], wallet)
         + if rows[|rows| - 1].wallet == wallet then rows[|rows| - 1].amount else 0
  }

  lemma SumForAppend(rows: seq<LedgerRow>, r: LedgerRow, wallet: Id)
    ensures SumFor(rows + [r], wallet) == SumFor(rows, wallet) + if r.wallet == wallet then r.amount else 0
  {
    assert (rows + [r])[..|rows|] == rows;
  }

  // ---- what a consistent book is ----

  /** The unique indexes of the wallet table: one active wallet per (user, app), one per account. */
  ghost predicate UniqueWallets(wallets: map<Id, Wallet>) {
    && (forall v <- wallets, w <- wallets ::
          wallets[v].active && ActiveFor(wallets[w], wallets[v].user, wallets[v].app) ==> v == w)
    && (forall v <- wallets, w <- wallets :: wallets[v].account == wallets[w].account ==> v == w)
  }

  /** The unique indexes and keys the schema enforces on the two tables. */
  ghost predicate Indexed(b: Book) {
    UniqueWallets(b.wallets) && UniqueRows(b.ledger)
  }

  ghost predicate UniqueRows(rows: seq<LedgerRow>) {
    forall i, j :: 0 <= i < j < |rows| ==>
      rows[i].id != rows[j].id && !Keyed(rows[j], rows[i].app, rows[i].key)
  }

  /** Each row names a wallet of its own user and app, and carries the running balance. */
  ghost predicate RunningBalances(b: Book) {
    forall i :: 0 <= i < |b.ledger| ==>
      && b.ledger[i].wallet in b.wallets
      && b.wallets[b.ledger[i].wallet].user == b.ledger[i].user
      && b.wallets[b.ledger[i].wallet].app == b.ledger[i].app
      && b.ledger[i].amount != 0
      && b.ledger[i].balanceAfter == SumFor(b.ledger[..i + 1], b.ledger[i].wallet)
  }

  ghost predicate Balanced(b: Book) {
    forall w <- b.wallets :: b.wallets[w].balance == SumFor(b.ledger, w)
  }

  /** The audit invariant of the billing tables. */
  ghost predicate Consistent(b: Book) {
    Indexed(b) && RunningBalances(b) && Balanced(b)
  }

  // ---- one posting as an atomic step ----

  /** `_ensure_wallet_in_conn` once the scope is known: the wallet to use and the table after. The
      leftover UNIQUE(account_id) of the wallet table can refuse the insert. */
  ghost function EnsuredWallet(wallets: map<Id, Wallet>, account: Id, user: Id, app: Id, walletId: Id)
    : Result<(Id, map<Id, Wallet>)>
  {
    match ActiveWallet(wallets, user, app)
    case Some(w) => Ok((w, wallets))
    case None =>
      if walletId in wallets || exists w <- wallets :: wallets[w].account == account then Err(DatabaseError)
      else Ok((walletId, wallets[walletId := Wallet(account, user, app, 0, true)]))
  }

  function RowFor(p: Posting, wallet: Id, balanceAfter: int): LedgerRow {
    LedgerRow(p.ledgerId, wallet, p.account, p.user, p.app, p.entry, p.source, p.sourceId, p.amount,
              balanceAfter, p.key)
  }

  /** The update and insert half of a posting, into a wallet known to exist. */
  function AddRow(b: Book, p: Posting, wallet: Id): Posted
    requires wallet in b.wallets
  {
    var after := b.wallets[wallet].balance + p.amount;
    var row := RowFor(p, wallet, after);
    Posted(Book(b.wallets[wallet := b.wallets[wallet].(balance := after)], b.ledger + [row]), row)
  }

  /** `_apply_wallet_ledger_in_conn` as one atomic step. */
  ghost function Post(b: Book, p: Posting): Result<Posted> {
    if p.amount == 0 then Err(InvalidAmount)
    else match FindKey(b.ledger, p.app, p.key)
      case Some(row) => if row.user != p.user then Err(ScopeMismatch) else Ok(Posted(b, row))
      case None =>
        match EnsuredWallet(b.wallets, p.account, p.user, p.app, p.walletId)
        case Err(e) => Err(e)
        case Ok(pair) =>
          var b' := b.(wallets := pair.1);
          if p.guarded && b'.wallets[pair.0].balance + p.amount < 0 then Err(InsufficientBalance)
          else if exists r <- b.ledger :: r.id == p.ledgerId then Err(DatabaseError)
          else Ok(AddRow(b', p, pair.0))
  }

  // ---- an atomic posting keeps the audit invariant ----

  lemma NewWalletConsistent(b: Book, account: Id, user: Id, app: Id, walletId: Id)
    requires Consistent(b)
    ensures var r := EnsuredWallet(b.wallets, account, user, app, walletId);
            r.Ok? ==> r.value.0 in r.value.1 && Consistent(b.(wallets := r.value.1))
  {
    var r := EnsuredWallet(b.wallets, account, user, app, walletId);
    if r.Ok? && r.value.1 != b.wallets {
      NoRowsNoSum(b.ledger, walletId);
    }
  }

  lemma {:induction false} NoRowsNoSum(rows: seq<LedgerRow>, wallet: Id)
    requires forall r <- rows :: r.wallet != wallet
    ensures SumFor(rows, wallet) == 0
  {
    if rows != [] {
      assert rows[|rows| - 1] in rows;
      NoRowsNoSum(rows[..|rows| - 1], wallet);
    }
  }

  lemma UniqueRowsAppend(rows: seq<LedgerRow>, r: LedgerRow)
    requires UniqueRows(rows) && !HasKey(rows, r.app, r.key) && forall x <- rows :: x.id != r.id
    ensures UniqueRows(rows + [r])
  {
    forall i, j | 0 <= i < j < |rows| + 1
      ensures (rows + [r])[i].id != (rows + [r])[j].id
      ensures !Keyed((rows + [r])[j], (rows + [r])[i].app, (rows + [r])[i].key)
    {
      assert rows[i] in rows;
    }
  }

  lemma BalancesAppend(b: Book, p: Posting, wallet: Id)
    requires Balanced(b) && wallet in b.wallets
    ensures Balanced(AddRow(b, p, wallet).book)
  {
    forall w ensures SumFor(AddRow(b, p, wallet).book.ledger, w) == SumFor(b.ledger, w) + if w == wallet then p.amount else 0 {
      SumForAppend(b.ledger, AddRow(b, p, wallet).row, w);
    }
  }

  lemma RunningAppend(b: Book, p: Posting, wallet: Id)
    requires RunningBalances(b) && Balanced(b) && wallet in b.wallets && p.amount != 0
    requires b.wallets[wallet].user == p.user && b.wallets[wallet].app == p.app
    ensures RunningBalances(AddRow(b, p, wallet).book)
  {
    var Posted(b', row) := AddRow(b, p, wallet);
    BalancesAppend(b, p, wallet);
    forall i | 0 <= i < |b'.ledger|
      ensures b'.ledger[i].balanceAfter == SumFor(b'.ledger[..i + 1], b'.ledger[i].wallet)
    {
      if i < |b.ledger| {
        assert b'.ledger[..i + 1] == b.ledger[..i + 1];
      } else {
        assert b'.ledger[..i + 1] == b'.ledger;
      }
    }
  }

  lemma AddRowConsistent(b: Book, p: Posting, wallet: Id)
    requires Consistent(b) && wallet in b.wallets && p.amount != 0
    requires b.wallets[wallet].user == p.user && b.wallets[wallet].app == p.app
    requires !HasKey(b.ledger, p.app, p.key) && forall r <- b.ledger :: r.id != p.ledgerId
    ensures Consistent(AddRow(b, p, wallet).book)
  {
    UniqueRowsAppend(b.ledger, AddRow(b, p, wallet).row);
    BalancesAppend(b, p, wallet);
    RunningAppend(b, p, wallet);
    assert UniqueWallets(AddRow(b, p, wallet).book.wallets);
  }

  /** What a posting under a new key does: it appends one row for its own wallet and moves that
      wallet's balance, and no other, by exactly the posted amount. */
  ghost predicate Appended(b: Book, p: Posting, b': Book, row: LedgerRow) {
    && row.wallet in b'.wallets
    && b'.ledger == b.ledger + [row]
    && row == RowFor(p, row.wallet, b'.wallets[row.wallet].balance)
    && b'.wallets.Keys == b.wallets.Keys + {row.wallet}
    && ActiveFor(b'.wallets[row.wallet], p.user, p.app)
    && (p.guarded ==> b'.wallets[row.wallet].balance >= 0)
    && (row.wallet !in b.wallets ==>
          b'.wallets[row.wallet] == Wallet(p.account, p.user, p.app, p.amount, true))
    && forall w <- b.wallets :: b'.wallets[w] == b.wallets[w].(balance :=
         b.wallets[w].balance + if w == row.wallet then p.amount else 0)
  }

  lemma PostAppends(b: Book, p: Posting)
    requires Post(b, p).Ok? && !HasKey(b.ledger, p.app, p.key)
    ensures Appended(b, p, Post(b, p).value.book, Post(b, p).value.row)
  {
  }

  /** An atomic posting keeps the invariant: it changes nothing when its key is already in the
      ledger, and appends one row otherwise. */
  lemma PostConsistent(b: Book, p: Posting)
    requires Consistent(b) && Post(b, p).Ok?
    ensures Consistent(Post(b, p).value.book)
    ensures var Posted(b', row) := Post(b, p).value;
            && b.ledger <= b'.ledger && b.wallets.Keys <= b'.wallets.Keys
            && row in b'.ledger && Keyed(row, p.app, p.key) && row.user == p.user
            && if HasKey(b.ledger, p.app, p.key) then b' == b else Appended(b, p, b', row)
  {
    if !HasKey(b.ledger, p.app, p.key) {
      PostAppends(b, p);
      NewWalletConsistent(b, p.account, p.user, p.app, p.walletId);
      var pair := EnsuredWallet(b.wallets, p.account, p.user, p.app, p.walletId).value;
      AddRowConsistent(b.(wallets := pair.1), p, pair.0);
      assert Post(b, p).value.book.ledger[|b.ledger|] == Post(b, p).value.row;
    }
  }

  /** Posting again under the same key gives back the first row and changes nothing, whatever else
      the second request asks for. */
  lemma PostReplay(b: Book, p: Posting, q: Posting)
    requires Post(b, p).Ok? && q.amount != 0 && q.app == p.app && q.key == p.key && q.user == p.user
    ensures Post(Post(b, p).value.book, q) == Post(b, p)
  {
    if !HasKey(b.ledger, p.app, p.key) {
      FindKeyLast(b.ledger, Post(b, p).value.row);
    }
  }

  lemma {:induction false} FindKeyLast(rows: seq<LedgerRow>, r: LedgerRow)
    requires !HasKey(rows, r.app, r.key)
    ensures FindKey(rows + [r], r.app, r.key) == Some(r)
  {
    if rows != [] {
      assert (rows + [r])[1..] == rows[1..] + [r];
      forall q <- rows[1..] ensures !Keyed(q, r.app, r.key) { assert q in rows; }
      FindKeyLast(rows[1..], r);
      assert rows[0] in rows;
    }
  }

  // ---- many postings, one after the other ----

  /** The book after the postings are applied atomically, in order; the first refusal stops it. */
  ghost function PostAll(b: Book, ps: seq<Posting>): Result<Book> {
    if ps == [] then Ok(b)
    else match PostAll(b, ps[..|ps| - 1])
      case Err(e) => Err(e)
      case Ok(mid) =>
        match Post(mid, ps[|ps| - 1])
        case Err(e) => Err(e)
        case Ok(posted) => Ok(posted.book)
  }

  lemma {:induction false} PostAllConsistent(b: Book, ps: seq<Posting>)
    requires Consistent(b) && PostAll(b, ps).Ok?
    ensures Consistent(PostAll(b, ps).value) && b.ledger <= PostAll(b, ps).value.ledger
    ensures b.wallets.Keys <= PostAll(b, ps).value.wallets.Keys
  {
    if ps != [] {
      PostAllConsistent(b, ps[..|ps| - 1]);
      PostConsistent(PostAll(b, ps[..|ps| - 1]).value, ps[|ps| - 1]);
    }
  }

  lemma {:induction false} PostAllConcat(b: Book, ps: seq<Posting>, qs: seq<Posting>)
    requires PostAll(b, ps).Ok?
    ensures PostAll(b, ps + qs) == PostAll(PostAll(b, ps).value, qs)
  {
    if qs == [] {
      assert ps + qs == ps;
    } else {
      assert (ps + qs)[..|ps + qs| - 1] == ps + qs[..|qs| - 1];
      PostAllConcat(b, ps, qs[..|qs| - 1]);
    }
  }

  /** A posting that cannot overdraw: a credit, or a guarded debit. */
  predicate Covered(p: Posting) { p.amount > 0 || p.guarded }

  ghost predicate NoOverdraft(b: Book) {
    forall w <- b.wallets :: b.wallets[w].balance >= 0
  }

  lemma PostCovered(b: Book, p: Posting)
    requires NoOverdraft(b) && Post(b, p).Ok? && Covered(p)
    ensures NoOverdraft(Post(b, p).value.book)
  {
    if !HasKey(b.ledger, p.app, p.key) {
      PostAppends(b, p);
    }
  }

  lemma {:induction false} CoveredNeverOverdraws(b: Book, ps: seq<Posting>)
    requires NoOverdraft(b) && PostAll(b, ps).Ok?
    requires forall p <- ps :: Covered(p)
    ensures NoOverdraft(PostAll(b, ps).value)
  {
    if ps != [] {
      assert ps[|ps| - 1] in ps && forall q <- ps[..|ps| - 1] :: q in ps;
      CoveredNeverOverdraws(b, ps[..|ps| - 1]);
      PostCovered(PostAll(b, ps[..|ps| - 1]).value, ps[|ps| - 1]);
    }
  }
}
