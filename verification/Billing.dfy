/** Wallets, the ledger, fixed reservations and usage charges, as the code updates them row by row,
    and what holds over every run of those calls. */
module Billing {
  import opened Wrappers
  import opened Text
  import opened Ledger
  import opened Tables

  /** The source a caller's text names, after cleaning; `Other("")` stands for no text at all. */
  function SourceOf(raw: string): Source {
    var text := CleanText(raw);
    if text == "fixed_reservation" then FixedReservation
    else if text == "fixed_reservation_release" then FixedReservationRelease
    else if text == "usage_charge" then UsageCharge
    else if text == "image_understanding_charge" then ImageCharge
    else if text == "referral_reward" then ReferralReward
    else Other(text)
  }

  /** What a caller asks `_apply_wallet_ledger_in_conn` to post, with its key and source already read. */
  datatype Request = Request(
    account: Id, user: Id, amount: int, entry: Entry, source: Source, sourceId: Option<string>,
    key: Key, walletId: Id, ledgerId: Id)

  function CleanOptional(s: Option<string>): Option<string> {
    if s.None? || CleanText(s.value) == "" then None else Some(CleanText(s.value))
  }

  function PostingOf(r: Request, scope: Scope, guarded: bool): Posting {
    Posting(r.account, scope.user, scope.app, r.amount, r.entry, r.source,
            CleanOptional(r.sourceId), r.key, guarded, r.walletId, r.ledgerId)
  }

  // ---- specifications ----

  ghost function Applied(t: Tables, r: Request): Result<Posted> {
    if r.amount == 0 then Err(InvalidAmount)
    else if r.source == Other("") || r.key == Plain("") then Err(MissingText)
    else match ResolveScope(t.dir, r.account, Some(r.user))
      case Err(e) => Err(e)
      case Ok(scope) => Post(t.book, PostingOf(r, scope, false))
  }

  ghost function Granted(t: Tables, r: Request): Result<Posted> {
    if r.amount <= 0 then Err(InvalidAmount) else Applied(t, r.(entry := Credit))
  }

  function ReserveRequest(account: Id, user: Id, amount: int, key: Key, sourceId: Option<string>,
                          walletId: Id, ledgerId: Id): Request
  {
    Request(account, user, -amount, Debit, FixedReservation, sourceId, key, walletId, ledgerId)
  }

  ghost function Reserved(t: Tables, r: Request): Result<Posted> {
    if r.amount >= 0 then Err(InvalidAmount)
    else if r.key == Plain("") then Err(MissingText)
    else match ResolveScope(t.dir, r.account, Some(r.user))
      case Err(e) => Err(e)
      case Ok(scope) =>
        match FindKey(t.book.ledger, scope.app, r.key)
        case Some(row) =>
          if row.account != r.account || row.user != r.user then Err(OwnerMismatch)
          else if row.amount != r.amount then Err(AmountMismatch)
          else if HasKey(t.book.ledger, scope.app, ReleaseOf(Print(r.key))) then Err(AlreadyReleased)
          else Ok(Posted(t.book, row))
        case None => Post(t.book, PostingOf(r, scope, true))
  }

  /** A reservation row is only ever released by the account and user that made it. */
  predicate ReservationOf(row: LedgerRow, app: Id, key: Key, account: Id, user: Id) {
    Keyed(row, app, key) && row.source == FixedReservation && row.account == account && row.user == user
  }

  function FindReservation(rows: seq<LedgerRow>, app: Id, key: Key, account: Id, user: Id): (r: Option<LedgerRow>)
    ensures r.Some? ==> r.value in rows && ReservationOf(r.value, app, key, account, user)
    ensures r.None? ==> forall row <- rows :: !ReservationOf(row, app, key, account, user)
  {
    if rows == [] then None
    else if ReservationOf(rows[0], app, key, account, user) then Some(rows[0])
    else
      assert forall row <- rows :: row == rows[0] || row in rows[1..];
      FindReservation(rows[1..], app, key, account, user)
  }

  function ReleaseRequest(row: LedgerRow, walletId: Id, ledgerId: Id): Request {
    Request(row.account, row.user, -row.amount, Credit, FixedReservationRelease, Some(row.id),
            ReleaseOf(Print(row.key)), walletId, ledgerId)
  }

  ghost function Released(t: Tables, account: Id, user: Id, key: Key, walletId: Id, ledgerId: Id): Result<Posted> {
    match ResolveScope(t.dir, account, Some(user))
    case Err(e) => Err(e)
    case Ok(scope) =>
      match FindReservation(t.book.ledger, scope.app, key, account, user)
      case None => Err(ReservationNotFound)
      case Some(row) => Applied(t, ReleaseRequest(row, walletId, ledgerId))
  }

  datatype Charge = Charge(
    account: Id, kind: CostKind, computed: int, sourceId: Option<string>, key: string,
    eventId: Id, walletId: Id, ledgerId: Id)

  function FindCost(costs: seq<CostEvent>, app: Id, key: string): (r: Option<CostEvent>)
    ensures r.Some? ==> r.value in costs && r.value.app == app && r.value.key == key
    ensures r.None? ==> forall e <- costs :: !(e.app == app && e.key == key)
  {
    if costs == [] then None
    else if costs[0].app == app && costs[0].key == key then Some(costs[0])
    else
      assert forall e <- costs :: e == costs[0] || e in costs[1..];
      FindCost(costs[1..], app, key)
  }

  function ChargeRequest(c: Charge, user: Id): Request {
    Request(c.account, user, -c.computed, Debit,
            if c.kind.LlmTokens? then UsageCharge else ImageCharge,
            c.sourceId, UsageOf(CleanText(c.key)), c.walletId, c.ledgerId)
  }

  function EventFor(c: Charge, row: LedgerRow, wallet: Id, scope: Scope): CostEvent {
    CostEvent(c.eventId, wallet, c.account, scope.user, scope.app, c.kind, c.computed, row.id, CleanText(c.key))
  }

  /** The whole effect of a usage charge: the tables after it and the cost event it stands for, or
      none when there is nothing to charge or nobody to charge. */
  ghost function Charged(t: Tables, c: Charge): (Tables, Result<Option<CostEvent>>) {
    if CleanText(c.key) == "" then (t, Err(MissingText))
    else if c.computed <= 0 then (t, Ok(None))
    else match ResolveScope(t.dir, c.account, None)
      case Err(e) => (t, if e == AccountNotFound || e == OwnerNotFound then Ok(None) else Err(e))
      case Ok(scope) =>
        match FindCost(t.costs, scope.app, CleanText(c.key))
        case Some(event) =>
          if event.account != c.account || event.user != scope.user then (t, Err(ScopeMismatch))
          else (t, Ok(Some(event)))
        case None =>
          match EnsuredWallet(t.book.wallets, c.account, scope.user, scope.app, c.walletId)
          case Err(e) => (t, Err(e))
          case Ok(pair) =>
            match Applied(t.(book := t.book.(wallets := pair.1)), ChargeRequest(c, scope.user))
            case Err(e) => (t, Err(e))
            case Ok(posted) =>
              if exists e <- t.costs :: e.id == c.eventId then (t, Err(DatabaseError))
              else
                var event := EventFor(c, posted.row, pair.0, scope);
                (t.(book := posted.book, costs := t.costs + [event]), Ok(Some(event)))
  }

  // ---- the calls ----

  /** `_ensure_wallet_in_conn` for a resolved scope. */
  method EnsureWalletInConn(conn: Connection, account: Id, user: Id, app: Id, walletId: Id) returns (r: Result<Id>)
    requires UniqueWallets(conn.wallets)
    modifies conn`wallets
    ensures match EnsuredWallet(old(conn.wallets), account, user, app, walletId)
            case Err(e) => r == Err(e) && conn.wallets == old(conn.wallets)
            case Ok(pair) => r == Ok(pair.0) && conn.wallets == pair.1
  {
    var found := set w <- conn.wallets | ActiveFor(conn.wallets[w], user, app);
    assert forall w <- conn.wallets :: w in found <==> ActiveFor(conn.wallets[w], user, app);
    if found == {} {
      assert ActiveWallet(conn.wallets, user, app).None?;
      if walletId in conn.wallets || exists w <- conn.wallets :: conn.wallets[w].account == account {
        return Err(DatabaseError);
      }
      conn.wallets := conn.wallets[walletId := Wallet(account, user, app, 0, true)];
      return Ok(walletId);
    }
    var w :| w in found;
    assert ActiveWallet(conn.wallets, user, app) == Some(w);
    return Ok(w);
  }

  /** UPDATE the balance, SELECT it back, INSERT the ledger row. */
  method PostRowInConn(conn: Connection, p: Posting, w: Id) returns (row: LedgerRow)
    requires w in conn.wallets
    modifies conn`wallets, conn`ledger
    ensures row == AddRow(Book(old(conn.wallets), old(conn.ledger)), p, w).row
    ensures Book(conn.wallets, conn.ledger) == AddRow(Book(old(conn.wallets), old(conn.ledger)), p, w).book
  {
    conn.wallets := conn.wallets[w := conn.wallets[w].(balance := conn.wallets[w].balance + p.amount)];
    var balanceAfter := conn.wallets[w].balance;
    row := LedgerRow(p.ledgerId, w, p.account, p.user, p.app, p.entry, p.source, p.sourceId, p.amount,
                     balanceAfter, p.key);
    conn.ledger := conn.ledger + [row];
  }

  /** `_apply_wallet_ledger_in_conn`: look up the key, ensure the wallet, add to its balance, read the
      balance back, insert the row. An error leaves the tables as they were. The row ids are those
      `_new_id` draws; one already taken is a primary-key violation. */
  method ApplyWalletLedgerInConn(conn: Connection, q: Request) returns (r: Result<LedgerRow>)
    requires UniqueWallets(conn.wallets)
    modifies conn`wallets, conn`ledger
    ensures match Applied(old(conn.Snapshot()), q)
            case Err(e) => r == Err(e) && conn.Snapshot() == old(conn.Snapshot())
            case Ok(posted) => r == Ok(posted.row) && conn.Snapshot() == old(conn.Snapshot()).(book := posted.book)
  {
    var t := conn.Snapshot();
    if q.amount == 0 { return Err(InvalidAmount); }
    if q.source == Other("") || q.key == Plain("") { return Err(MissingText); }
    var scope := ResolveScope(t.dir, q.account, Some(q.user));
    if scope.Err? { return Err(scope.error); }
    var app := scope.value.app;
    var existing := FindKey(conn.ledger, app, q.key);
    if existing.Some? {
      if existing.value.user != q.user { return Err(ScopeMismatch); }
      return Ok(existing.value);
    }
    var before := conn.wallets;
    var wallet := EnsureWalletInConn(conn, q.account, q.user, app, q.walletId);
    if wallet.Err? { return Err(wallet.error); }
    if exists row <- conn.ledger :: row.id == q.ledgerId {
      conn.wallets := before;
      return Err(DatabaseError);
    }
    var row := PostRowInConn(conn, PostingOf(q, scope.value, false), wallet.value);
    return Ok(row);
  }

  method GrantShells(conn: Connection, account: Id, user: Id, amount: int, source: string, sourceId: Option<string>,
                     key: string, walletId: Id, ledgerId: Id) returns (r: Result<LedgerRow>)
    requires UniqueWallets(conn.wallets)
    modifies conn`wallets, conn`ledger
    ensures match Granted(old(conn.Snapshot()), Request(account, user, amount, Credit, SourceOf(source), sourceId, KeyOf(key), walletId, ledgerId))
            case Err(e) => r == Err(e) && conn.Snapshot() == old(conn.Snapshot())
            case Ok(posted) => r == Ok(posted.row) && conn.Snapshot() == old(conn.Snapshot()).(book := posted.book)
  {
    if amount <= 0 { return Err(InvalidAmount); }
    r := ApplyWalletLedgerInConn(
      conn, Request(account, user, amount, Credit, SourceOf(source), sourceId, KeyOf(key), walletId, ledgerId));
  }

  /** The conditional UPDATE of a reservation and its ledger row; when the balance is too small the
      UPDATE matches no row, and the wallet perhaps just created is rolled back with the rest. */
  method PostGuardedInConn(conn: Connection, p: Posting) returns (r: Result<LedgerRow>)
    requires UniqueWallets(conn.wallets)
    requires p.guarded && p.amount != 0 && !HasKey(conn.ledger, p.app, p.key)
    modifies conn`wallets, conn`ledger
    ensures match Post(old(conn.Snapshot().book), p)
            case Err(e) => r == Err(e) && conn.Snapshot() == old(conn.Snapshot())
            case Ok(posted) => r == Ok(posted.row) && conn.Snapshot() == old(conn.Snapshot()).(book := posted.book)
  {
    var before := conn.wallets;
    var wallet := EnsureWalletInConn(conn, p.account, p.user, p.app, p.walletId);
    if wallet.Err? { return Err(wallet.error); }
    var w := wallet.value;
    if !conn.wallets[w].active || conn.wallets[w].balance < -p.amount {
      conn.wallets := before;
      return Err(InsufficientBalance);
    }
    if exists row <- conn.ledger :: row.id == p.ledgerId {
      conn.wallets := before;
      return Err(DatabaseError);
    }
    var row := PostRowInConn(conn, p, w);
    return Ok(row);
  }

  /** `reserve_fixed_shells`: a conditional debit that never takes the balance below zero. */
  method ReserveFixedShells(conn: Connection, account: Id, user: Id, amount: int, rawKey: string,
                            sourceId: Option<string>, walletId: Id, ledgerId: Id)
    returns (r: Result<LedgerRow>)
    requires UniqueWallets(conn.wallets)
    modifies conn`wallets, conn`ledger
    ensures match Reserved(old(conn.Snapshot()), ReserveRequest(account, user, amount, KeyOf(rawKey), sourceId, walletId, ledgerId))
            case Err(e) => r == Err(e) && conn.Snapshot() == old(conn.Snapshot())
            case Ok(posted) => r == Ok(posted.row) && conn.Snapshot() == old(conn.Snapshot()).(book := posted.book)
  {
    var t := conn.Snapshot();
    if amount <= 0 { return Err(InvalidAmount); }
    var key := KeyOf(rawKey);
    if key == Plain("") { return Err(MissingText); }
    var scope := ResolveScope(t.dir, account, Some(user));
    if scope.Err? { return Err(scope.error); }
    var app := scope.value.app;
    var existing := FindKey(conn.ledger, app, key);
    if existing.Some? {
      if existing.value.account != account || existing.value.user != user { return Err(OwnerMismatch); }
      if existing.value.amount != -amount { return Err(AmountMismatch); }
      if FindKey(conn.ledger, app, ReleaseOf(Print(key))).Some? { return Err(AlreadyReleased); }
      return Ok(existing.value);
    }
    var q := ReserveRequest(account, user, amount, KeyOf(rawKey), sourceId, walletId, ledgerId);
    r := PostGuardedInConn(conn, PostingOf(q, scope.value, true));
  }

  /** `release_fixed_shell_reservation`: post the opposite amount under the derived release key. */
  method ReleaseFixedShellReservation(conn: Connection, account: Id, user: Id, rawKey: string, walletId: Id, ledgerId: Id)
    returns (r: Result<LedgerRow>)
    requires UniqueWallets(conn.wallets)
    modifies conn`wallets, conn`ledger
    ensures match Released(old(conn.Snapshot()), account, user, KeyOf(rawKey), walletId, ledgerId)
            case Err(e) => r == Err(e) && conn.Snapshot() == old(conn.Snapshot())
            case Ok(posted) => r == Ok(posted.row) && conn.Snapshot() == old(conn.Snapshot()).(book := posted.book)
  {
    var scope := ResolveScope(conn.Snapshot().dir, account, Some(user));
    if scope.Err? { return Err(scope.error); }
    var key := KeyOf(rawKey);
    var reservation := FindReservation(conn.ledger, scope.value.app, key, account, user);
    if reservation.None? { return Err(ReservationNotFound); }
    r := ApplyWalletLedgerInConn(conn, ReleaseRequest(reservation.value, walletId, ledgerId));
  }

  /** `record_chat_usage_charge` and `record_image_understanding_charge` once the amount is computed:
      they differ only in the cost type and the ledger source. */
  method RecordCharge(conn: Connection, c: Charge) returns (r: Result<Option<CostEvent>>)
    requires UniqueWallets(conn.wallets)
    modifies conn
    ensures (conn.Snapshot(), r) == Charged(old(conn.Snapshot()), c)
  {
    var t := conn.Snapshot();
    var key := CleanText(c.key);
    if key == "" { return Err(MissingText); }
    if c.computed <= 0 { return Ok(None); }
    var scope := ResolveScope(t.dir, c.account, None);
    if scope.Err? {
      if scope.error == AccountNotFound || scope.error == OwnerNotFound { return Ok(None); }
      return Err(scope.error);
    }
    var (user, app) := (scope.value.user, scope.value.app);
    var existing := FindCost(conn.costs, app, key);
    if existing.Some? {
      if existing.value.account != c.account || existing.value.user != user { return Err(ScopeMismatch); }
      return Ok(existing);
    }
    var wallet := EnsureWalletInConn(conn, c.account, user, app, c.walletId);
    if wallet.Err? { return Err(wallet.error); }
    EnsuredUnique(t.book.wallets, c.account, user, app, c.walletId);
    var row := ApplyWalletLedgerInConn(conn, ChargeRequest(c, user));
    if row.Err? {
      conn.Rollback(t);
      return Err(row.error);
    }
    if exists e <- conn.costs :: e.id == c.eventId {
      conn.Rollback(t);
      return Err(DatabaseError);
    }
    var event := CostEvent(c.eventId, wallet.value, c.account, user, app, c.kind, c.computed, row.value.id, key);
    conn.costs := conn.costs + [event];
    return Ok(Some(event));
  }

  lemma EnsuredUnique(wallets: map<Id, Wallet>, account: Id, user: Id, app: Id, walletId: Id)
    requires UniqueWallets(wallets)
    ensures var r := EnsuredWallet(wallets, account, user, app, walletId); r.Ok? ==> UniqueWallets(r.value.1)
  {
  }
}
