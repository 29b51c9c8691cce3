/** What every run of billing calls keeps, however the calls are replayed. */
module BillingRuns {
  import opened Wrappers
  import opened Text
  import opened Ledger
  import opened Tables
  import opened Billing

  datatype Op =
    | Grant(q: Request)
    | Reserve(q: Request)
    | Release(account: Id, user: Id, key: Key, walletId: Id, ledgerId: Id)
    | Use(c: Charge)

  /** The book after a call that posts at most one ledger row. */
  ghost function BookAfter(t: Tables, r: Result<Posted>): Tables {
    if r.Ok? then t.(book := r.value.book) else t
  }

  ghost function Posts(t: Tables, op: Op): Result<Posted>
    requires !op.Use?
  {
    match op
    case Grant(q) => Granted(t, q)
    case Reserve(q) => Reserved(t, q)
    case Release(account, user, key, walletId, ledgerId) => Released(t, account, user, key, walletId, ledgerId)
  }

  ghost function Step(t: Tables, op: Op): Tables {
    if op.Use? then Charged(t, op.c).0 else BookAfter(t, Posts(t, op))
  }

  /** Whether the call returned normally and stands for something posted. */
  ghost predicate Succeeds(t: Tables, op: Op) {
    if op.Use? then Charged(t, op.c).1.Ok? && Charged(t, op.c).1.value.Some? else Posts(t, op).Ok?
  }

  /** A call as the shipped callers make it: a reservation is made through `reserve_fixed_shells`, no
      caller's key looks like a derived one, and no grant claims to be a reservation. */
  ghost predicate Proper(op: Op) {
    match op
    case Grant(q) => q.key.Plain? && q.source != FixedReservation
    case Reserve(q) => q.key.Plain? && q.source == FixedReservation
    case Release(_, _, _, _, _) => true
    case Use(_) => true
  }

  // ---- reservations ----

  ghost predicate ReleasedBy(r: LedgerRow, x: LedgerRow) {
    x.key.Plain? && r.app == x.app && r.key == ReleaseOf(x.key.text) && r.amount == -x.amount && r.wallet == x.wallet
  }

  ghost predicate Undoes(ledger: seq<LedgerRow>, r: LedgerRow) {
    exists x <- ledger :: x.source == FixedReservation && ReleasedBy(r, x)
  }

  /** Reservation rows are debits of active wallets, and each release row undoes a reservation row. */
  ghost predicate ReservationsOk(b: Book) {
    && (forall x <- b.ledger :: x.source == FixedReservation ==>
         x.amount < 0 && x.key.Plain? && x.wallet in b.wallets && b.wallets[x.wallet].active)
    && (forall r {:trigger Undoes(b.ledger, r)} :: r in b.ledger && r.key.ReleaseOf? ==> Undoes(b.ledger, r))
  }

  // ---- usage charges ----

  ghost predicate PairOf(e: CostEvent, r: LedgerRow) {
    && r.id == e.ledgerId && r.app == e.app && r.key == UsageOf(e.key) && r.amount == -e.computed
    && r.wallet == e.wallet && r.account == e.account && r.user == e.user
  }

  ghost predicate UniqueCosts(costs: seq<CostEvent>) {
    forall i, j :: 0 <= i < j < |costs| ==>
      costs[i].id != costs[j].id && !(costs[i].app == costs[j].app && costs[i].key == costs[j].key)
  }

  ghost predicate Backed(ledger: seq<LedgerRow>, e: CostEvent) {
    exists r <- ledger :: PairOf(e, r)
  }

  ghost predicate Explained(costs: seq<CostEvent>, r: LedgerRow) {
    exists e <- costs :: PairOf(e, r)
  }

  // The triggers keep the two existentials from feeding each other.
  ghost predicate EventsBacked(ledger: seq<LedgerRow>, costs: seq<CostEvent>) {
    forall e {:trigger Backed(ledger, e)} :: e in costs ==> Backed(ledger, e)
  }

  ghost predicate RowsExplained(ledger: seq<LedgerRow>, costs: seq<CostEvent>) {
    forall r {:trigger Explained(costs, r)} :: r in ledger && r.key.UsageOf? ==> Explained(costs, r)
  }

  ghost predicate Paired(ledger: seq<LedgerRow>, costs: seq<CostEvent>) {
    UniqueCosts(costs) && EventsBacked(ledger, costs) && RowsExplained(ledger, costs)
  }

  // Mentioning `Unfold` is what lets the verifier look inside the invariant.
  predicate Unfold(k: int) { true }

  /** The invariant of the billing tables. */
  ghost predicate BillingInv(t: Tables) {
    forall k {:trigger Unfold(k)} :: Unfold(k) ==>
      Consistent(t.book) && ReservationsOk(t.book) && Paired(t.book.ledger, t.costs)
  }

  // ---- appending one row keeps both ----

  lemma ReservationsAppend(b: Book, p: Posting, b': Book, row: LedgerRow)
    requires Appended(b, p, b', row) && ReservationsOk(b)
    requires row.source == FixedReservation ==> row.amount < 0 && row.key.Plain?
    requires row.key.ReleaseOf? ==> Undoes(b.ledger, row)
    ensures ReservationsOk(b')
  {
    forall x <- b'.ledger | x.source == FixedReservation
      ensures x.amount < 0 && x.key.Plain? && x.wallet in b'.wallets && b'.wallets[x.wallet].active
    {
      assert x in b.ledger || x == row;
    }
    forall r | r in b'.ledger && r.key.ReleaseOf? ensures Undoes(b'.ledger, r) {
      assert Undoes(b.ledger, r);
      var x :| x in b.ledger && x.source == FixedReservation && ReleasedBy(r, x);
      assert x in b'.ledger;
    }
  }

  lemma BackedAppend(ledger: seq<LedgerRow>, row: LedgerRow, costs: seq<CostEvent>)
    requires EventsBacked(ledger, costs)
    ensures EventsBacked(ledger + [row], costs)
  {
    forall e | e in costs ensures Backed(ledger + [row], e) {
      assert Backed(ledger, e);
      var r :| r in ledger && PairOf(e, r);
      assert r in ledger + [row];
    }
  }

  lemma PairedAppend(ledger: seq<LedgerRow>, row: LedgerRow, costs: seq<CostEvent>)
    requires Paired(ledger, costs) && !row.key.UsageOf?
    ensures Paired(ledger + [row], costs)
  {
    BackedAppend(ledger, row, costs);
  }

  lemma ExplainedCharge(ledger: seq<LedgerRow>, row: LedgerRow, costs: seq<CostEvent>, e: CostEvent)
    requires RowsExplained(ledger, costs) && PairOf(e, row)
    ensures RowsExplained(ledger + [row], costs + [e])
  {
    assert e in costs + [e];
    forall r | r in ledger + [row] && r.key.UsageOf? ensures Explained(costs + [e], r) {
      if r in ledger {
        assert Explained(costs, r);
        var x :| x in costs && PairOf(x, r);
        assert x in costs + [e];
      }
    }
  }

  lemma UniqueCostsAppend(costs: seq<CostEvent>, e: CostEvent)
    requires UniqueCosts(costs) && forall x <- costs :: x.id != e.id && !(x.app == e.app && x.key == e.key)
    ensures UniqueCosts(costs + [e])
  {
    forall i, j | 0 <= i < j < |costs| + 1
      ensures var (x, y) := ((costs + [e])[i], (costs + [e])[j]); x.id != y.id && !(x.app == y.app && x.key == y.key)
    {
      assert costs[i] in costs;
    }
  }

  lemma PairedCharge(ledger: seq<LedgerRow>, row: LedgerRow, costs: seq<CostEvent>, e: CostEvent)
    requires Paired(ledger, costs) && PairOf(e, row)
    requires forall x <- costs :: x.id != e.id && !(x.app == e.app && x.key == e.key)
    ensures Paired(ledger + [row], costs + [e])
  {
    UniqueCostsAppend(costs, e);
    ExplainedCharge(ledger, row, costs, e);
    BackedAppend(ledger, row, costs);
    assert row in ledger + [row];
    forall x | x in costs + [e] ensures Backed(ledger + [row], x) {
      assert x in costs ==> Backed(ledger + [row], x);
    }
  }

  /** What a posting must be for its row not to upset reservations or pairs. */
  ghost predicate Fitting(b: Book, p: Posting) {
    && (p.source == FixedReservation ==> p.amount < 0 && p.key.Plain?)
    && !p.key.UsageOf?
    && (p.key.ReleaseOf? ==>
          exists x <- b.ledger :: x.source == FixedReservation && x.key.Plain? && x.app == p.app && x.user == p.user
                                  && p.key == ReleaseOf(x.key.text) && p.amount == -x.amount)
  }

  /** A release lands in the wallet its reservation was taken from. */
  lemma ReleaseWallet(b: Book, x: LedgerRow, p: Posting)
    requires UniqueWallets(b.wallets) && RunningBalances(b) && Post(b, p).Ok? && !HasKey(b.ledger, p.app, p.key)
    requires x in b.ledger && x.wallet in b.wallets && b.wallets[x.wallet].active && p.user == x.user && p.app == x.app
    ensures Post(b, p).value.row.wallet == x.wallet
  {
    var i :| 0 <= i < |b.ledger| && b.ledger[i] == x;
    assert ActiveFor(b.wallets[x.wallet], x.user, x.app);
    assert ActiveWallet(b.wallets, x.user, x.app) == Some(x.wallet);
  }

  lemma PostReservations(b: Book, p: Posting)
    requires UniqueWallets(b.wallets) && RunningBalances(b) && ReservationsOk(b) && Post(b, p).Ok? && Fitting(b, p)
    ensures ReservationsOk(Post(b, p).value.book)
  {
    if !HasKey(b.ledger, p.app, p.key) {
      PostAppends(b, p);
      var Posted(b', row) := Post(b, p).value;
      if p.key.ReleaseOf? {
        var x :| x in b.ledger && x.source == FixedReservation && x.key.Plain? && x.app == p.app && x.user == p.user
                 && p.key == ReleaseOf(x.key.text) && p.amount == -x.amount;
        ReleaseWallet(b, x, p);
        assert ReleasedBy(row, x);
      }
      ReservationsAppend(b, p, b', row);
    }
  }

  lemma PostPaired(b: Book, p: Posting, costs: seq<CostEvent>)
    requires Paired(b.ledger, costs) && Post(b, p).Ok? && !p.key.UsageOf?
    ensures Paired(Post(b, p).value.book.ledger, costs)
  {
    if !HasKey(b.ledger, p.app, p.key) {
      PostAppends(b, p);
      PairedAppend(b.ledger, Post(b, p).value.row, costs);
    }
  }

  /** A fitting posting keeps everything. */
  lemma PostKeeps(t: Tables, p: Posting)
    requires BillingInv(t) && Post(t.book, p).Ok? && Fitting(t.book, p)
    ensures BillingInv(BookAfter(t, Post(t.book, p)))
  {
    assert Unfold(0);
    PostConsistent(t.book, p);
    PostReservations(t.book, p);
    PostPaired(t.book, p, t.costs);
  }

  // ---- each call keeps the invariant ----

  lemma GrantKeeps(t: Tables, q: Request)
    requires BillingInv(t) && Proper(Grant(q)) && Granted(t, q).Ok?
    ensures BillingInv(BookAfter(t, Granted(t, q)))
  {
    PostKeeps(t, PostingOf(q.(entry := Credit), ResolveScope(t.dir, q.account, Some(q.user)).value, false));
  }

  lemma ReserveFits(t: Tables, q: Request)
    requires Proper(Reserve(q)) && Reserved(t, q).Ok?
    ensures var p := PostingOf(q, ResolveScope(t.dir, q.account, Some(q.user)).value, true);
            if HasKey(t.book.ledger, p.app, p.key) then BookAfter(t, Reserved(t, q)) == t
            else Fitting(t.book, p) && Post(t.book, p) == Reserved(t, q)
  {
  }

  lemma ReserveKeeps(t: Tables, q: Request)
    requires BillingInv(t) && Proper(Reserve(q)) && Reserved(t, q).Ok?
    ensures BillingInv(BookAfter(t, Reserved(t, q)))
  {
    ReserveFits(t, q);
    var p := PostingOf(q, ResolveScope(t.dir, q.account, Some(q.user)).value, true);
    if !HasKey(t.book.ledger, p.app, p.key) {
      PostKeeps(t, p);
    }
  }

  lemma ReleaseFits(t: Tables, account: Id, user: Id, key: Key, walletId: Id, ledgerId: Id)
    requires ReservationsOk(t.book) && Released(t, account, user, key, walletId, ledgerId).Ok?
    ensures var scope := ResolveScope(t.dir, account, Some(user)).value;
            var x := FindReservation(t.book.ledger, scope.app, key, account, user).value;
            var p := PostingOf(ReleaseRequest(x, walletId, ledgerId), scope, false);
            && Fitting(t.book, p) && Post(t.book, p) == Released(t, account, user, key, walletId, ledgerId)
            && p.amount == -x.amount > 0 && x.key == key && p.key == ReleaseOf(Print(key))
  {
    var scope := ResolveScope(t.dir, account, Some(user)).value;
    var x := FindReservation(t.book.ledger, scope.app, key, account, user).value;
    assert x.key.Plain? && Print(x.key) == x.key.text;
  }

  lemma PostsKeeps(t: Tables, op: Op)
    requires BillingInv(t) && !op.Use? && Proper(op)
    ensures BillingInv(BookAfter(t, Posts(t, op)))
  {
    if Posts(t, op).Ok? {
      match op
      case Grant(q) => GrantKeeps(t, q);
      case Reserve(q) => ReserveKeeps(t, q);
      case Release(account, user, key, walletId, ledgerId) =>
        assert ReservationsOk(t.book) by { assert Unfold(0); }
        ReleaseFits(t, account, user, key, walletId, ledgerId);
        var scope := ResolveScope(t.dir, account, Some(user)).value;
        var x := FindReservation(t.book.ledger, scope.app, key, account, user).value;
        PostKeeps(t, PostingOf(ReleaseRequest(x, walletId, ledgerId), scope, false));
    }
  }

  /** The ledger row a new charge inserts, in the wallet it has just ensured. */
  lemma ChargePosts(t: Tables, c: Charge, scope: Scope, pair: (Id, map<Id, Wallet>), posted: Posted)
    requires UniqueWallets(t.book.wallets) && Paired(t.book.ledger, t.costs)
    requires FindCost(t.costs, scope.app, CleanText(c.key)).None?
    requires EnsuredWallet(t.book.wallets, c.account, scope.user, scope.app, c.walletId) == Ok(pair)
    requires ResolveScope(t.dir, c.account, Some(scope.user)) == Ok(scope) && c.computed > 0
    requires Applied(t.(book := t.book.(wallets := pair.1)), ChargeRequest(c, scope.user)) == Ok(posted)
    ensures var p := PostingOf(ChargeRequest(c, scope.user), scope, false);
            && !HasKey(t.book.ledger, scope.app, p.key)
            && Post(t.book.(wallets := pair.1), p) == Ok(posted)
            && posted.row.wallet == pair.0
            && PairOf(EventFor(c, posted.row, pair.0, scope), posted.row)
  {
    var p := PostingOf(ChargeRequest(c, scope.user), scope, false);
    forall r <- t.book.ledger ensures !Keyed(r, scope.app, p.key) {
      if r.key.UsageOf? {
        assert Explained(t.costs, r);
        var e :| e in t.costs && PairOf(e, r);
        assert !(e.app == scope.app && e.key == CleanText(c.key));
      }
    }
    EnsuredUnique(t.book.wallets, c.account, scope.user, scope.app, c.walletId);
    assert ActiveWallet(pair.1, scope.user, scope.app) == Some(pair.0);
    PostAppends(t.book.(wallets := pair.1), p);
  }

  lemma ClaimResolved(dir: Directory, account: Id)
    requires ResolveScope(dir, account, None).Ok?
    ensures ResolveScope(dir, account, Some(ResolveScope(dir, account, None).value.user)) == ResolveScope(dir, account, None)
  {
  }

  lemma ChargeKeeps(t: Tables, c: Charge)
    requires BillingInv(t)
    ensures BillingInv(Charged(t, c).0)
  {
    assert Unfold(0);
    var t' := Charged(t, c).0;
    if t' != t {
      var scope := ResolveScope(t.dir, c.account, None).value;
      ClaimResolved(t.dir, c.account);
      var pair := EnsuredWallet(t.book.wallets, c.account, scope.user, scope.app, c.walletId).value;
      var mid := t.(book := t.book.(wallets := pair.1));
      var posted := Applied(mid, ChargeRequest(c, scope.user)).value;
      var p := PostingOf(ChargeRequest(c, scope.user), scope, false);
      ChargePosts(t, c, scope, pair, posted);
      NewWalletConsistent(t.book, c.account, scope.user, scope.app, c.walletId);
      PostConsistent(mid.book, p);
      EnsuredReservations(t.book, c.account, scope.user, scope.app, c.walletId);
      PostAppends(mid.book, p);
      ReservationsAppend(mid.book, p, posted.book, posted.row);
      PairedCharge(t.book.ledger, posted.row, t.costs, EventFor(c, posted.row, pair.0, scope));
    }
  }

  lemma EnsuredReservations(b: Book, account: Id, user: Id, app: Id, walletId: Id)
    requires ReservationsOk(b)
    ensures var r := EnsuredWallet(b.wallets, account, user, app, walletId);
            r.Ok? ==> ReservationsOk(b.(wallets := r.value.1))
  {
    forall r | r in b.ledger && r.key.ReleaseOf? ensures Undoes(b.ledger, r) {
    }
  }

  lemma StepKeeps(t: Tables, op: Op)
    requires BillingInv(t) && Proper(op)
    ensures BillingInv(Step(t, op))
  {
    if op.Use? {
      ChargeKeeps(t, op.c);
    } else {
      PostsKeeps(t, op);
    }
  }

  // ---- runs ----

  /** A run interleaves calls with any change of the directory (bindings, memberships, products). */
  datatype Event = Call(op: Op) | Change(dir: Directory)

  ghost function Next(t: Tables, e: Event): Tables {
    match e
    case Call(op) => Step(t, op)
    case Change(dir) => t.(dir := dir)
  }

  ghost function Run(t: Tables, es: seq<Event>): Tables {
    if es == [] then t else Next(Run(t, es[..|es| - 1]), es[|es| - 1])
  }

  ghost predicate ProperEvent(e: Event) { e.Call? ==> Proper(e.op) }

  lemma {:induction false} RunKeeps(t: Tables, es: seq<Event>)
    requires BillingInv(t) && forall e <- es :: ProperEvent(e)
    ensures BillingInv(Run(t, es))
  {
    if es != [] {
      assert es[|es| - 1] in es && forall e <- es[..|es| - 1] :: e in es;
      RunKeeps(t, es[..|es| - 1]);
      if es[|es| - 1].Call? {
        StepKeeps(Run(t, es[..|es| - 1]), es[|es| - 1].op);
      }
    }
  }

  lemma PostGrows(b: Book, p: Posting)
    requires Post(b, p).Ok?
    ensures b.ledger <= Post(b, p).value.book.ledger
    ensures Post(b, p).value.row in Post(b, p).value.book.ledger
    ensures HasKey(Post(b, p).value.book.ledger, p.app, p.key)
  {
    if !HasKey(b.ledger, p.app, p.key) {
      PostAppends(b, p);
      assert Post(b, p).value.book.ledger[|b.ledger|] == Post(b, p).value.row;
    }
  }

  lemma ChargeGrows(t: Tables, c: Charge)
    ensures var t' := Charged(t, c).0; t.book.ledger <= t'.book.ledger && t.costs <= t'.costs && t'.dir == t.dir
  {
    if Charged(t, c).0 != t {
      var scope := ResolveScope(t.dir, c.account, None).value;
      var pair := EnsuredWallet(t.book.wallets, c.account, scope.user, scope.app, c.walletId).value;
      PostGrows(t.book.(wallets := pair.1), PostingOf(ChargeRequest(c, scope.user), scope, false));
    }
  }

  /** Rows are only ever added, one call at a time. */
  lemma StepGrows(t: Tables, op: Op)
    ensures t.book.ledger <= Step(t, op).book.ledger && t.costs <= Step(t, op).costs && Step(t, op).dir == t.dir
  {
    if op.Use? {
      ChargeGrows(t, op.c);
    } else if Posts(t, op).Ok? {
      PostsGrow(t, op);
    }
  }

  lemma PostsGrow(t: Tables, op: Op)
    requires !op.Use? && Posts(t, op).Ok?
    ensures t.book.ledger <= Posts(t, op).value.book.ledger
  {
    match op
    case Grant(q) =>
      PostGrows(t.book, PostingOf(q.(entry := Credit), ResolveScope(t.dir, q.account, Some(q.user)).value, false));
    case Reserve(q) =>
      var scope := ResolveScope(t.dir, q.account, Some(q.user)).value;
      if !HasKey(t.book.ledger, scope.app, q.key) {
        PostGrows(t.book, PostingOf(q, scope, true));
      }
    case Release(account, user, key, walletId, ledgerId) =>
      var scope := ResolveScope(t.dir, account, Some(user)).value;
      var x := FindReservation(t.book.ledger, scope.app, key, account, user).value;
      PostGrows(t.book, PostingOf(ReleaseRequest(x, walletId, ledgerId), scope, false));
  }

  lemma {:induction false} RunGrows(t: Tables, es: seq<Event>)
    ensures t.book.ledger <= Run(t, es).book.ledger && t.costs <= Run(t, es).costs
  {
    if es != [] {
      RunGrows(t, es[..|es| - 1]);
      if es[|es| - 1].Call? {
        StepGrows(Run(t, es[..|es| - 1]), es[|es| - 1].op);
      }
    }
  }

  // ---- fixed reservations over a run ----

  /** The sum of the ledger amounts posted for one key in one wallet. */
  function KeySum(rows: seq<LedgerRow>, wallet: Id, app: Id, key: Key): int {
    if rows == [] then 0
    else
      var r := rows[|rows| - 1];
      KeySum(rows[..|rows| - 1], wallet, app, key) + if r.wallet == wallet && Keyed(r, app, key) then r.amount else 0
  }

  lemma {:induction false} KeySumIs(rows: seq<LedgerRow>, wallet: Id, app: Id, key: Key)
    requires UniqueRows(rows)
    ensures forall r <- rows :: Keyed(r, app, key) && r.wallet == wallet ==> KeySum(rows, wallet, app, key) == r.amount
    ensures !HasKey(rows, app, key) ==> KeySum(rows, wallet, app, key) == 0
  {
    if rows != [] {
      var (pre, last) := (rows[..|rows| - 1], rows[|rows| - 1]);
      KeySumIs(pre, wallet, app, key);
      assert forall r <- pre :: r in rows;
      if Keyed(last, app, key) {
        forall r <- pre ensures !Keyed(r, app, key) {
          var i :| 0 <= i < |pre| && pre[i] == r;
          assert !Keyed(rows[|rows| - 1], rows[i].app, rows[i].key);
        }
      }
    }
  }

  /** At any time, a reservation and its release together contribute the reserved debit to the wallet
      while it is live, and exactly nothing once it is released. */
  lemma ReservationContribution(t: Tables, x: LedgerRow)
    requires BillingInv(t) && x in t.book.ledger && x.source == FixedReservation
    ensures x.key.Plain? && x.amount < 0
    ensures var release := ReleaseOf(x.key.text);
            KeySum(t.book.ledger, x.wallet, x.app, x.key) + KeySum(t.book.ledger, x.wallet, x.app, release)
            == if HasKey(t.book.ledger, x.app, release) then 0 else x.amount
  {
    assert Unfold(0);
    var release := ReleaseOf(x.key.text);
    KeySumIs(t.book.ledger, x.wallet, x.app, x.key);
    KeySumIs(t.book.ledger, x.wallet, x.app, release);
    if HasKey(t.book.ledger, x.app, release) {
      var r :| r in t.book.ledger && Keyed(r, x.app, release);
      assert Undoes(t.book.ledger, r);
      var y :| y in t.book.ledger && y.source == FixedReservation && ReleasedBy(r, y);
      SameKeySameRow(t.book.ledger, x, y);
    }
  }

  lemma SameKeySameRow(rows: seq<LedgerRow>, x: LedgerRow, y: LedgerRow)
    requires UniqueRows(rows) && x in rows && y in rows && Keyed(x, y.app, y.key)
    ensures x == y
  {
    var i :| 0 <= i < |rows| && rows[i] == x;
    var j :| 0 <= j < |rows| && rows[j] == y;
    assert Keyed(rows[j], rows[i].app, rows[i].key);
  }

  /** A released key can never be consumed again: whatever happens after the release, reserving under
      that key in that app is refused. */
  lemma ReleasedForever(t: Tables, es: seq<Event>, app: Id, key: string, q: Request)
    requires HasKey(t.book.ledger, app, ReleaseOf(key)) && HasKey(t.book.ledger, app, Plain(key)) && q.key == Plain(key)
    requires var scope := ResolveScope(Run(t, es).dir, q.account, Some(q.user)); scope.Ok? ==> scope.value.app == app
    ensures Reserved(Run(t, es), q).Err?
  {
    RunGrows(t, es);
    var r :| r in t.book.ledger && Keyed(r, app, ReleaseOf(key));
    var x :| x in t.book.ledger && Keyed(x, app, Plain(key));
    assert r in Run(t, es).book.ledger && x in Run(t, es).book.ledger;
  }

  /** In a run of grants, reservations and releases alone no balance ever drops below zero. */
  lemma {:induction false} NeverOverdrawn(t: Tables, es: seq<Event>)
    requires BillingInv(t) && NoOverdraft(t.book)
    requires forall e <- es :: ProperEvent(e) && (e.Call? ==> !e.op.Use?)
    ensures NoOverdraft(Run(t, es).book)
  {
    if es != [] {
      var (pre, e) := (es[..|es| - 1], es[|es| - 1]);
      assert e in es && forall x <- pre :: x in es;
      NeverOverdrawn(t, pre);
      RunKeeps(t, pre);
      if e.Call? {
        assert ReservationsOk(Run(t, pre).book) by { assert Unfold(0); }
        CallCovered(Run(t, pre), e.op);
      }
    }
  }

  lemma CallCovered(t: Tables, op: Op)
    requires ReservationsOk(t.book) && NoOverdraft(t.book) && Proper(op) && !op.Use?
    ensures NoOverdraft(Step(t, op).book)
  {
    if Posts(t, op).Ok? {
      match op
      case Grant(q) =>
        PostCovered(t.book, PostingOf(q.(entry := Credit), ResolveScope(t.dir, q.account, Some(q.user)).value, false));
      case Reserve(q) =>
        ReserveFits(t, q);
        var p := PostingOf(q, ResolveScope(t.dir, q.account, Some(q.user)).value, true);
        if !HasKey(t.book.ledger, p.app, p.key) {
          PostCovered(t.book, p);
        }
      case Release(account, user, key, walletId, ledgerId) =>
        ReleaseFits(t, account, user, key, walletId, ledgerId);
        var scope := ResolveScope(t.dir, account, Some(user)).value;
        var x := FindReservation(t.book.ledger, scope.app, key, account, user).value;
        PostCovered(t.book, PostingOf(ReleaseRequest(x, walletId, ledgerId), scope, false));
    }
  }

  /** A new reservation leaves its wallet's balance non-negative, whatever it was before. */
  lemma ReservationLeavesCover(t: Tables, q: Request)
    requires Reserved(t, q).Ok?
    requires !HasKey(t.book.ledger, ResolveScope(t.dir, q.account, Some(q.user)).value.app, q.key)
    ensures var Posted(b', row) := Reserved(t, q).value;
            row.wallet in b'.wallets && b'.wallets[row.wallet].balance >= 0 && row.amount == q.amount < 0
  {
    PostAppends(t.book, PostingOf(q, ResolveScope(t.dir, q.account, Some(q.user)).value, true));
  }

  // ---- exactly once ----

  ghost predicate OnlyRow(rows: seq<LedgerRow>, r: LedgerRow, app: Id, key: Key) {
    r in rows && forall x <- rows :: Keyed(x, app, key) ==> x == r
  }

  ghost predicate OnlyEvent(costs: seq<CostEvent>, e: CostEvent, r: LedgerRow) {
    e in costs && forall x <- costs :: PairOf(x, r) ==> x == e
  }

  /** Cost events and usage rows pair one to one within an app: each event has exactly one row under
      its key, for the opposite amount, .. */
  lemma EventHasOneRow(t: Tables, e: CostEvent)
    requires UniqueRows(t.book.ledger) && EventsBacked(t.book.ledger, t.costs) && e in t.costs
    ensures exists r :: PairOf(e, r) && r.amount == -e.computed && OnlyRow(t.book.ledger, r, e.app, UsageOf(e.key))
  {
    assert Backed(t.book.ledger, e);
    var r :| r in t.book.ledger && PairOf(e, r);
    forall x <- t.book.ledger | Keyed(x, e.app, UsageOf(e.key)) ensures x == r {
      SameKeySameRow(t.book.ledger, x, r);
    }
    assert OnlyRow(t.book.ledger, r, e.app, UsageOf(e.key));
  }

  /** .. and each usage row exactly one event. */
  lemma RowHasOneEvent(t: Tables, r: LedgerRow)
    requires UniqueCosts(t.costs) && RowsExplained(t.book.ledger, t.costs) && r in t.book.ledger && r.key.UsageOf?
    ensures exists e :: PairOf(e, r) && OnlyEvent(t.costs, e, r)
  {
    assert Explained(t.costs, r);
    var e :| e in t.costs && PairOf(e, r);
    forall x <- t.costs | PairOf(x, r) ensures x == e {
      var i :| 0 <= i < |t.costs| && t.costs[i] == e;
      var j :| 0 <= j < |t.costs| && t.costs[j] == x;
    }
    assert OnlyEvent(t.costs, e, r);
  }

  /** No account changes its app in the directory. */
  ghost predicate SameApps(dir: Directory, homes: Homes) {
    forall a <- dir.accounts :: a in homes && dir.accounts[a].app == homes[a].app
  }

  /** The call's key is already in the tables of its account's app. */
  ghost predicate Recorded(t: Tables, op: Op, homes: Homes) {
    match op
    case Grant(q) => q.account in homes && HasKey(t.book.ledger, homes[q.account].app, q.key)
    case Reserve(q) => q.account in homes && HasKey(t.book.ledger, homes[q.account].app, q.key)
    case Release(account, _, key, _, _) =>
      account in homes && HasKey(t.book.ledger, homes[account].app, ReleaseOf(Print(key)))
    case Use(c) =>
      c.account in homes && exists e <- t.costs :: e.app == homes[c.account].app && e.key == CleanText(c.key)
  }

  lemma ReserveRecords(t: Tables, q: Request)
    requires Reserved(t, q).Ok?
    ensures HasKey(Reserved(t, q).value.book.ledger, t.dir.accounts[q.account].app, q.key)
  {
    var scope := ResolveScope(t.dir, q.account, Some(q.user)).value;
    if !HasKey(t.book.ledger, scope.app, q.key) {
      PostGrows(t.book, PostingOf(q, scope, true));
    }
  }

  lemma ReleaseRecords(t: Tables, account: Id, user: Id, key: Key, walletId: Id, ledgerId: Id)
    requires Released(t, account, user, key, walletId, ledgerId).Ok?
    ensures HasKey(Released(t, account, user, key, walletId, ledgerId).value.book.ledger, t.dir.accounts[account].app,
                   ReleaseOf(Print(key)))
  {
    var scope := ResolveScope(t.dir, account, Some(user)).value;
    var x := FindReservation(t.book.ledger, scope.app, key, account, user).value;
    PostedRecorded(t, ReleaseRequest(x, walletId, ledgerId), Released(t, account, user, key, walletId, ledgerId).value);
  }

  lemma ChargeRecords(t: Tables, c: Charge)
    requires Succeeds(t, Use(c))
    ensures c.account in t.dir.accounts
    ensures exists e <- Charged(t, c).0.costs :: e.app == t.dir.accounts[c.account].app && e.key == CleanText(c.key)
  {
    var t' := Charged(t, c).0;
    if |t'.costs| > |t.costs| {
      assert t'.costs[|t.costs|] in t'.costs;
    }
  }

  lemma SuccessRecords(t: Tables, op: Op, homes: Homes)
    requires SameApps(t.dir, homes) && Succeeds(t, op)
    ensures Recorded(Step(t, op), op, homes)
  {
    match op
    case Grant(q) => PostedRecorded(t, q.(entry := Credit), Granted(t, q).value);
    case Reserve(q) => ReserveRecords(t, q);
    case Release(account, user, key, walletId, ledgerId) => ReleaseRecords(t, account, user, key, walletId, ledgerId);
    case Use(c) => ChargeRecords(t, c);
  }

  lemma PostedRecorded(t: Tables, q: Request, posted: Posted)
    requires Applied(t, q) == Ok(posted)
    ensures HasKey(posted.book.ledger, t.dir.accounts[q.account].app, q.key)
  {
    PostGrows(t.book, PostingOf(q, ResolveScope(t.dir, q.account, Some(q.user)).value, false));
  }

  lemma KeyedPostNothing(t: Tables, q: Request)
    requires q.account in t.dir.accounts && HasKey(t.book.ledger, t.dir.accounts[q.account].app, q.key)
    ensures Applied(t, q).Ok? ==> Applied(t, q).value.book == t.book
    ensures Reserved(t, q).Ok? ==> Reserved(t, q).value.book == t.book
  {
  }

  lemma ReleasedNothing(t: Tables, account: Id, user: Id, key: Key, walletId: Id, ledgerId: Id)
    requires account in t.dir.accounts && HasKey(t.book.ledger, t.dir.accounts[account].app, ReleaseOf(Print(key)))
    ensures var r := Released(t, account, user, key, walletId, ledgerId); r.Ok? ==> r.value.book == t.book
  {
    if Released(t, account, user, key, walletId, ledgerId).Ok? {
      var scope := ResolveScope(t.dir, account, Some(user)).value;
      var x := FindReservation(t.book.ledger, scope.app, key, account, user).value;
      KeyedPostNothing(t, ReleaseRequest(x, walletId, ledgerId));
    }
  }

  lemma RecordedChangesNothing(t: Tables, op: Op, homes: Homes)
    requires SameApps(t.dir, homes) && Recorded(t, op, homes)
    ensures Step(t, op) == t
  {
    assert t.(book := t.book) == t;
    match op
    case Grant(q) => if Granted(t, q).Ok? { KeyedPostNothing(t, q.(entry := Credit)); }
    case Reserve(q) => if Reserved(t, q).Ok? { KeyedPostNothing(t, q); }
    case Release(account, user, key, walletId, ledgerId) =>
      if Released(t, account, user, key, walletId, ledgerId).Ok? {
        ReleasedNothing(t, account, user, key, walletId, ledgerId);
      }
    case Use(c) =>
  }

  lemma RecordedStays(t: Tables, t': Tables, op: Op, homes: Homes)
    requires Recorded(t, op, homes) && t.book.ledger <= t'.book.ledger && t.costs <= t'.costs
    ensures Recorded(t', op, homes)
  {
    assert forall r <- t.book.ledger :: r in t'.book.ledger;
    assert forall e <- t.costs :: e in t'.costs;
  }

  lemma {:induction false} RunDirectory(t: Tables, es: seq<Event>, homes: Homes)
    requires SameApps(t.dir, homes) && forall e <- es :: e.Change? ==> SameApps(e.dir, homes)
    ensures SameApps(Run(t, es).dir, homes)
  {
    if es != [] {
      assert es[|es| - 1] in es && forall e <- es[..|es| - 1] :: e in es;
      RunDirectory(t, es[..|es| - 1], homes);
      if es[|es| - 1].Call? {
        StepGrows(Run(t, es[..|es| - 1]), es[|es| - 1].op);
      }
    }
  }

  /** Once a grant, reservation, release or charge has succeeded, making the same call again changes
      no table: at once or later, after any other calls and any change of owners and memberships. */
  lemma ReplayChangesNothing(t: Tables, op: Op, es: seq<Event>, homes: Homes)
    requires SameApps(t.dir, homes) && forall e <- es :: e.Change? ==> SameApps(e.dir, homes)
    requires Succeeds(t, op)
    ensures Step(Run(Step(t, op), es), op) == Run(Step(t, op), es)
  {
    var after := Step(t, op);
    StepGrows(t, op);
    SuccessRecords(t, op, homes);
    RunGrows(after, es);
    RunDirectory(after, es, homes);
    RecordedStays(after, Run(after, es), op, homes);
    RecordedChangesNothing(Run(after, es), op, homes);
  }
}
