/** The account wipe: which billing and quota rows it deletes, and why the audit chain stays whole. */
module Wipe {
  import opened Wrappers
  import opened Ledger
  import opened Tables
  import opened Filters

  // ---- what is deleted ----

  predicate OwnedSibling(t: Tables, account: Id, user: Id, app: Id) {
    exists b <- t.dir.bindings ::
      && b.user == user && b.account != account && b.active && b.app == app
      && b.account in t.dir.accounts && t.dir.accounts[b.account] == Account(app, true)
  }

  predicate ResidentSibling(t: Tables, account: Id, user: Id, app: Id) {
    exists a <- t.dir.world.residents ::
      && t.dir.world.residents[a].owner == user && a != account && !t.dir.world.residents[a].dismissed
      && a in t.dir.accounts && t.dir.accounts[a] == Account(app, true)
  }

  /** Whether another active account of the same user and app shares the wallet. */
  predicate HasSibling(t: Tables, account: Id)
    requires account in t.dir.accounts
  {
    var user := ResolveOwner(t.dir, account);
    var app := t.dir.accounts[account].app;
    user.Some? && (OwnedSibling(t, account, user.value, app) || ResidentSibling(t, account, user.value, app))
  }

  function Subject(t: Tables, account: Id): Id {
    var user := ResolveOwner(t.dir, account);
    if user.Some? then user.value else account
  }

  function Candidates(wallets: map<Id, Wallet>, account: Id, subject: Id, app: Id): set<Id> {
    set w <- wallets | wallets[w].app == app && (wallets[w].user == subject || wallets[w].account == account)
  }

  /** Some referral's reward row sits in the wallet. */
  predicate Referenced(ledger: seq<LedgerRow>, referrals: map<Id, Relationship>, wallet: Id) {
    exists l <- ledger :: l.wallet == wallet && exists r <- referrals :: referrals[r].rewardId == Some(l.id)
  }

  function ReferencedAmong(ids: set<Id>, ledger: seq<LedgerRow>, referrals: map<Id, Relationship>): set<Id> {
    set w <- ids | Referenced(ledger, referrals, w)
  }

  function Preserved(t: Tables, account: Id): set<Id>
    requires account in t.dir.accounts
  {
    ReferencedAmong(Candidates(t.book.wallets, account, Subject(t, account), t.dir.accounts[account].app),
                    t.book.ledger, t.referrals)
  }

  function Doomed(t: Tables, account: Id): set<Id>
    requires account in t.dir.accounts
  {
    Candidates(t.book.wallets, account, Subject(t, account), t.dir.accounts[account].app) - Preserved(t, account)
  }

  predicate Kept(rowWallet: Id, rowAccount: Id, rowApp: Id, account: Id, app: Id, doomed: set<Id>, preserved: set<Id>) {
    !(rowApp == app && (rowWallet in doomed || (rowAccount == account && rowWallet !in preserved)))
  }

  function KeepRow(account: Id, app: Id, doomed: set<Id>, preserved: set<Id>): LedgerRow -> bool {
    (r: LedgerRow) => Kept(r.wallet, r.account, r.app, account, app, doomed, preserved)
  }

  function KeepCost(account: Id, app: Id, doomed: set<Id>, preserved: set<Id>): CostEvent -> bool {
    (e: CostEvent) => Kept(e.wallet, e.account, e.app, account, app, doomed, preserved)
  }

  predicate QuotaHit(key: QuotaKey, rowAccount: Id, account: Id, subject: Id, app: Id) {
    key.app == app && (key.subject == subject || rowAccount == account)
  }

  function KeptReservations(rs: map<Id, Reservation>, account: Id, subject: Id, app: Id): map<Id, Reservation> {
    map x | x in rs && !QuotaHit(rs[x].key, rs[x].account, account, subject, app) :: rs[x]
  }

  function KeptUsage(usage: map<QuotaKey, Usage>, account: Id, subject: Id, app: Id): map<QuotaKey, Usage> {
    map k | k in usage && !QuotaHit(k, usage[k].account, account, subject, app) :: usage[k]
  }

  function Without<V>(m: map<Id, V>, gone: set<Id>): map<Id, V> {
    map k | k in m && k !in gone :: m[k]
  }

  function OtherThan(account: Id): Binding -> bool {
    (b: Binding) => b.account != account
  }

  function WipedDirectory(dir: Directory, account: Id): Directory
    requires account in dir.accounts
  {
    dir.(bindings := Filter(dir.bindings, OtherThan(account)),
         accounts := dir.accounts[account := dir.accounts[account].(active := false)])
  }

  /** The billing and quota tables after the last account of a product is wiped. */
  function WipedProduct(t: Tables, account: Id): Tables
    requires account in t.dir.accounts
  {
    var (app, subject) := (t.dir.accounts[account].app, Subject(t, account));
    var (doomed, preserved) := (Doomed(t, account), Preserved(t, account));
    t.(book := Book(Without(t.book.wallets, doomed),
                    Filter(t.book.ledger, KeepRow(account, app, doomed, preserved))),
       costs := Filter(t.costs, KeepCost(account, app, doomed, preserved)),
       reservations := KeptReservations(t.reservations, account, subject, app),
       usage := KeptUsage(t.usage, account, subject, app))
  }

  /** A wipe beside an active sibling takes only the account's own reservations. */
  function WipedBesideSibling(t: Tables, account: Id): Tables
    requires account in t.dir.accounts
  {
    t.(reservations := map x | x in t.reservations
       && !(t.reservations[x].account == account && t.reservations[x].key.app == t.dir.accounts[account].app)
       :: t.reservations[x])
  }

  /** The tables after `wipe_account_data`. */
  function Wiped(t: Tables, account: Id): Tables
    requires account in t.dir.accounts
  {
    (if HasSibling(t, account) then WipedBesideSibling(t, account) else WipedProduct(t, account))
    .(dir := WipedDirectory(t.dir, account))
  }

  /** The row counts the call reports. */
  datatype Report = Report(costs: nat, ledger: nat, wallets: nat)

  // ---- the call ----

  /** The per-wallet deletes, then the deletes of what is left under the account itself. */
  method DeleteRowsInConn(conn: Connection, account: Id, app: Id, doomed: set<Id>, preserved: set<Id>)
    returns (costs: nat, ledger: nat)
    modifies conn`costs, conn`ledger
    ensures conn.costs == Filter(old(conn.costs), KeepCost(account, app, doomed, preserved))
    ensures conn.ledger == Filter(old(conn.ledger), KeepRow(account, app, doomed, preserved))
    ensures costs == |old(conn.costs)| - |conn.costs| && ledger == |old(conn.ledger)| - |conn.ledger|
  {
    costs, ledger := 0, 0;
    var (before, rows) := (conn.costs, conn.ledger);
    var todo, done := doomed, {};
    FilterAll(before, (e: CostEvent) => !(e.app == app && e.wallet in done));
    FilterAll(rows, (r: LedgerRow) => !(r.app == app && r.wallet in done));
    while todo != {}
      invariant done + todo == doomed
      invariant conn.costs == Filter(before, (e: CostEvent) => !(e.app == app && e.wallet in done))
      invariant conn.ledger == Filter(rows, (r: LedgerRow) => !(r.app == app && r.wallet in done))
      invariant costs == |before| - |conn.costs| && ledger == |rows| - |conn.ledger|
      decreases todo
    {
      var w :| w in todo;
      var more := done + {w};
      var (costs0, ledger0) := (conn.costs, conn.ledger);
      conn.costs := Filter(costs0, (e: CostEvent) => !(e.app == app && e.wallet == w));
      conn.ledger := Filter(ledger0, (r: LedgerRow) => !(r.app == app && r.wallet == w));
      FilterFewer(costs0, (e: CostEvent) => !(e.app == app && e.wallet == w));
      FilterFewer(ledger0, (r: LedgerRow) => !(r.app == app && r.wallet == w));
      costs, ledger := costs + (|costs0| - |conn.costs|), ledger + (|ledger0| - |conn.ledger|);
      FilterMerge(before, (e: CostEvent) => !(e.app == app && e.wallet in done),
                  (e: CostEvent) => !(e.app == app && e.wallet == w),
                  (e: CostEvent) => !(e.app == app && e.wallet in more));
      FilterMerge(rows, (r: LedgerRow) => !(r.app == app && r.wallet in done),
                  (r: LedgerRow) => !(r.app == app && r.wallet == w),
                  (r: LedgerRow) => !(r.app == app && r.wallet in more));
      todo, done := todo - {w}, more;
    }
    var (costs1, ledger1) := (conn.costs, conn.ledger);
    conn.costs := Filter(costs1, (e: CostEvent) => !(e.account == account && e.app == app && e.wallet !in preserved));
    conn.ledger := Filter(ledger1, (r: LedgerRow) => !(r.account == account && r.app == app && r.wallet !in preserved));
    FilterFewer(costs1, (e: CostEvent) => !(e.account == account && e.app == app && e.wallet !in preserved));
    FilterFewer(ledger1, (r: LedgerRow) => !(r.account == account && r.app == app && r.wallet !in preserved));
    costs, ledger := costs + (|costs1| - |conn.costs|), ledger + (|ledger1| - |conn.ledger|);
    FilterMerge(before, (e: CostEvent) => !(e.app == app && e.wallet in done),
                (e: CostEvent) => !(e.account == account && e.app == app && e.wallet !in preserved),
                KeepCost(account, app, doomed, preserved));
    FilterMerge(rows, (r: LedgerRow) => !(r.app == app && r.wallet in done),
                (r: LedgerRow) => !(r.account == account && r.app == app && r.wallet !in preserved),
                KeepRow(account, app, doomed, preserved));
  }

  /** The branch for a last account of the product: take apart every wallet that no referral needs. */
  method WipeProductTables(conn: Connection, account: Id) returns (r: Report)
    requires account in conn.accounts
    modifies conn`costs, conn`ledger, conn`wallets, conn`reservations, conn`usage
    ensures conn.Snapshot() == WipedProduct(old(conn.Snapshot()), account)
    ensures r.costs == |old(conn.costs)| - |conn.costs| && r.ledger == |old(conn.ledger)| - |conn.ledger|
    ensures r.wallets == |old(conn.wallets)| - |conn.wallets|
  {
    var t := conn.Snapshot();
    var app := conn.accounts[account].app;
    var subject := Subject(t, account);
    var ids := Candidates(conn.wallets, account, subject, app);
    var preserved := ReferencedAmong(ids, conn.ledger, conn.referrals);
    var costs, ledger := DeleteRowsInConn(conn, account, app, ids - preserved, preserved);
    var before := conn.wallets;
    conn.wallets := Without(before, ids - preserved);
    RemovedCount(before, ids - preserved);
    conn.reservations := KeptReservations(conn.reservations, account, subject, app);
    conn.usage := KeptUsage(conn.usage, account, subject, app);
    r := Report(costs, ledger, |ids - preserved|);
  }

  /** The billing and quota half of `wipe_account_data`, with the binding and status updates. */
  method WipeAccountData(conn: Connection, account: Id) returns (r: Result<Report>)
    modifies conn
    ensures account !in old(conn.accounts) ==> r == Err(AccountNotFound) && conn.Snapshot() == old(conn.Snapshot())
    ensures account in old(conn.accounts) ==>
              && conn.Snapshot() == Wiped(old(conn.Snapshot()), account)
              && r.Ok? && r.value.costs == |old(conn.costs)| - |conn.costs|
              && r.value.ledger == |old(conn.ledger)| - |conn.ledger|
              && r.value.wallets == |old(conn.wallets)| - |conn.wallets|
  {
    if account !in conn.accounts { return Err(AccountNotFound); }
    var app := conn.accounts[account].app;
    var report := Report(0, 0, 0);
    if HasSibling(conn.Snapshot(), account) {
      conn.reservations := map x | x in conn.reservations
        && !(conn.reservations[x].account == account && conn.reservations[x].key.app == app) :: conn.reservations[x];
    } else {
      report := WipeProductTables(conn, account);
    }
    conn.bindings := Filter(conn.bindings, OtherThan(account));
    conn.accounts := conn.accounts[account := conn.accounts[account].(active := false)];
    return Ok(report);
  }

  lemma RemovedCount<V>(m: map<Id, V>, gone: set<Id>)
    requires gone <= m.Keys
    ensures |Without(m, gone)| == |m| - |gone|
  {
    assert Without(m, gone).Keys == m.Keys - gone;
  }
}
