/** How the billing calls are answered, and what they write, said of the tables themselves. */
module PostingAnswers {
  import opened Wrappers
  import opened Text
  import opened Ledger
  import opened Tables
  import opened Billing
  import opened BillingRuns

  // ---- whose wallet ----

  /** The account may be billed as (user, app): its product is enabled, it is owned by the user, and the
      user is an active member of the product. */
  predicate BillableAs(dir: Directory, account: Id, user: Id, app: Id) {
    && account in dir.accounts && dir.accounts[account].app == app && app in dir.world.enabled
    && ResolveOwner(dir, account) == Some(user) && (user, app) in dir.world.members
  }

  /** The scope of a call is the owner and the product, for a caller that names the owner or nobody; every
      other answer says what is missing, in this order. */
  lemma ScopeAnswers(dir: Directory, account: Id, claimed: Option<Id>)
    ensures var r := ResolveScope(dir, account, claimed);
            && (forall user, app :: r == Ok(Scope(user, app)) <==>
                  BillableAs(dir, account, user, app) && (claimed == None || claimed == Some(user)))
            && (r == Err(AccountNotFound) <==> account !in dir.accounts)
            && (r == Err(AppNotEnabled) <==> account in dir.accounts && dir.accounts[account].app !in dir.world.enabled)
            && (r == Err(OwnerNotFound) <==>
                  account in dir.accounts && dir.accounts[account].app in dir.world.enabled && ResolveOwner(dir, account) == None)
            && (r == Err(ScopeMismatch) <==>
                  && account in dir.accounts && dir.accounts[account].app in dir.world.enabled
                  && exists user :: ResolveOwner(dir, account) == Some(user) && claimed.Some? && claimed != Some(user))
            && (r.Err? ==> r.error in {AccountNotFound, AppNotEnabled, OwnerNotFound, ScopeMismatch, MembershipInactive})
  {
  }

  /** The wallet a posting goes to: the active one of the user in the product, or a new empty one, which
      fails when its id is taken or the account has a wallet already. */
  lemma WalletAnswers(wallets: map<Id, Wallet>, account: Id, user: Id, app: Id, walletId: Id)
    ensures var r := EnsuredWallet(wallets, account, user, app, walletId);
            if exists w <- wallets :: wallets[w].active && wallets[w].user == user && wallets[w].app == app then
              && r.Ok? && r.value.1 == wallets && r.value.0 in wallets
              && wallets[r.value.0].active && wallets[r.value.0].user == user && wallets[r.value.0].app == app
            else if walletId in wallets || exists w <- wallets :: wallets[w].account == account then r == Err(DatabaseError)
            else r == Ok((walletId, wallets[walletId := Wallet(account, user, app, 0, true)]))
  {
    if w :| w in wallets && wallets[w].active && wallets[w].user == user && wallets[w].app == app {
      assert ActiveFor(wallets[w], user, app);
    }
  }

  // ---- one posting ----

  ghost predicate HasWallet(b: Book, user: Id, app: Id) {
    exists w <- b.wallets :: b.wallets[w].active && b.wallets[w].user == user && b.wallets[w].app == app
  }

  ghost predicate CanOpen(b: Book, account: Id, walletId: Id) {
    walletId !in b.wallets && forall w <- b.wallets :: b.wallets[w].account != account
  }

  /** What a posting under a new key does to a book: the row it appends, field by field, and the one
      wallet it moves. */
  ghost predicate Writes(b: Book, p: Posting, b': Book, row: LedgerRow) {
    && b'.ledger == b.ledger + [row]
    && row.id == p.ledgerId && row.account == p.account && row.user == p.user && row.app == p.app
    && row.entry == p.entry && row.source == p.source && row.sourceId == p.sourceId && row.amount == p.amount && row.key == p.key
    && row.wallet in b'.wallets && row.balanceAfter == b'.wallets[row.wallet].balance
    && b'.wallets[row.wallet].active && b'.wallets[row.wallet].user == p.user && b'.wallets[row.wallet].app == p.app
    && (row.wallet in b.wallets ==> b'.wallets == b.wallets[row.wallet :=
         b.wallets[row.wallet].(balance := b.wallets[row.wallet].balance + p.amount)])
    && (row.wallet !in b.wallets ==>
         row.wallet == p.walletId && b'.wallets == b.wallets[p.walletId := Wallet(p.account, p.user, p.app, p.amount, true)])
  }


  /** How a posting is answered: a known key gives back its row, or refuses another user; a new one is
      written, unless it is of nothing, its wallet cannot be had, a guarded one is not covered, or its id
      is taken. */
  lemma PostAnswers(b: Book, p: Posting)
    ensures var r := Post(b, p);
            if p.amount == 0 then r == Err(InvalidAmount)
            else if exists x <- b.ledger :: x.app == p.app && x.key == p.key then
              exists x <- b.ledger :: x.app == p.app && x.key == p.key
                && r == if x.user == p.user then Ok(Posted(b, x)) else Err(ScopeMismatch)
            else if !HasWallet(b, p.user, p.app) && !CanOpen(b, p.account, p.walletId) then r == Err(DatabaseError)
            else if p.guarded && BalanceOf(b, p.user, p.app) + p.amount < 0 then r == Err(InsufficientBalance)
            else if exists x <- b.ledger :: x.id == p.ledgerId then r == Err(DatabaseError)
            else r.Ok? && Writes(b, p, r.value.book, r.value.row)
  {
    WalletAnswers(b.wallets, p.account, p.user, p.app, p.walletId);
    HasKeyMeans(b.ledger, p.app, p.key);
  }

  lemma HasKeyMeans(rows: seq<LedgerRow>, app: Id, key: Key)
    ensures HasKey(rows, app, key) <==> exists x <- rows :: x.app == app && x.key == key
  {
  }

  // ---- the calls ----

  /** A trimmed text, or none when nothing is left of it. */
  function Trimmed(s: Option<string>): Option<string> {
    match s
    case None => None
    case Some(text) => if CleanText(text) == "" then None else Some(CleanText(text))
  }

  /** A grant of a positive amount, with a source and a key, by the account's owner, is posted as a credit
      that nothing guards. */
  lemma GrantAnswers(t: Tables, q: Request)
    ensures var r := Granted(t, q);
            && (q.amount <= 0 ==> r == Err(InvalidAmount))
            && (q.amount > 0 && (q.source == Other("") || q.key == Plain("")) ==> r == Err(MissingText))
            && (q.amount > 0 && q.source != Other("") && q.key != Plain("") ==>
                  && (ResolveScope(t.dir, q.account, Some(q.user)).Err? ==> r == Err(ResolveScope(t.dir, q.account, Some(q.user)).error))
                  && (forall app :: BillableAs(t.dir, q.account, q.user, app) ==>
                        r == Post(t.book, Posting(q.account, q.user, app, q.amount, Credit, q.source, Trimmed(q.sourceId), q.key, false,
                                                  q.walletId, q.ledgerId))))
  {
    ScopeAnswers(t.dir, q.account, Some(q.user));
  }

  lemma ReservationIs(account: Id, user: Id, amount: int, key: Key, sourceId: Option<string>, walletId: Id, ledgerId: Id)
    ensures var q := ReserveRequest(account, user, amount, key, sourceId, walletId, ledgerId);
            q == Request(account, user, -amount, Debit, FixedReservation, sourceId, key, walletId, ledgerId)
  {
  }

  /** A reservation of the account's owner: a known key gives back the row when it is of the same account,
      user and amount and has not been released, and is refused otherwise; a new one is posted as a debit
      the balance must cover. */
  lemma ReserveAnswers(t: Tables, q: Request, app: Id)
    requires BillableAs(t.dir, q.account, q.user, app) && UniqueRows(t.book.ledger) && q.amount < 0 && q.key != Plain("")
    ensures var r := Reserved(t, q);
            && (forall x <- t.book.ledger :: x.app == app && x.key == q.key ==>
                  r == if x.account != q.account || x.user != q.user then Err(OwnerMismatch)
                       else if x.amount != q.amount then Err(AmountMismatch)
                       else if exists y <- t.book.ledger :: y.app == app && y.key == ReleaseOf(Print(q.key)) then Err(AlreadyReleased)
                       else Ok(Posted(t.book, x)))
            && ((forall x <- t.book.ledger :: !(x.app == app && x.key == q.key)) ==>
                  r == Post(t.book, Posting(q.account, q.user, app, q.amount, q.entry, q.source, Trimmed(q.sourceId), q.key, true,
                                            q.walletId, q.ledgerId)))
  {
    ScopeAnswers(t.dir, q.account, Some(q.user));
    HasKeyMeans(t.book.ledger, app, q.key);
    HasKeyMeans(t.book.ledger, app, ReleaseOf(Print(q.key)));
    forall x <- t.book.ledger | x.app == app && x.key == q.key ensures FindKey(t.book.ledger, app, q.key) == Some(x) {
      OneRowPerKey(t.book.ledger, app, q.key, x);
    }
  }

  /** A reservation of nothing, without a key, or outside the owner's scope is refused before any row is
      looked at. */
  lemma ReserveRefused(t: Tables, q: Request)
    ensures var (r, scope) := (Reserved(t, q), ResolveScope(t.dir, q.account, Some(q.user)));
            && (q.amount >= 0 ==> r == Err(InvalidAmount))
            && (q.amount < 0 && q.key == Plain("") ==> r == Err(MissingText))
            && (q.amount < 0 && q.key != Plain("") && scope.Err? ==> r == Err(scope.error))
  {
  }

  lemma OneRowPerKey(rows: seq<LedgerRow>, app: Id, key: Key, x: LedgerRow)
    requires UniqueRows(rows) && x in rows && x.app == app && x.key == key
    ensures FindKey(rows, app, key) == Some(x)
  {
    assert Keyed(x, app, key);
    var y := FindKey(rows, app, key).value;
    var i :| 0 <= i < |rows| && rows[i] == x;
    var j :| 0 <= j < |rows| && rows[j] == y;
    assert i < j ==> !Keyed(rows[j], rows[i].app, rows[i].key);
    assert j < i ==> !Keyed(rows[i], rows[j].app, rows[j].key);
  }

  /** A reservation is released only for the account and user that made it; the release is posted as the
      opposite amount, naming the reservation's row, under the key derived from its key. */
  lemma ReleaseAnswers(t: Tables, account: Id, user: Id, key: Key, walletId: Id, ledgerId: Id, app: Id, x: LedgerRow)
    requires BillableAs(t.dir, account, user, app) && UniqueRows(t.book.ledger)
    requires x in t.book.ledger && x.app == app && x.key == key && x.source == FixedReservation && x.account == account && x.user == user
    requires x.amount != 0
    ensures Released(t, account, user, key, walletId, ledgerId)
         == Post(t.book, Posting(account, user, app, -x.amount, Credit, FixedReservationRelease, Trimmed(Some(x.id)),
                                 ReleaseOf(Print(key)), false, walletId, ledgerId))
  {
    ScopeAnswers(t.dir, account, Some(user));
    ReservationFound(t.book.ledger, app, key, account, user, x);
  }

  /** Without such a row there is nothing to release. */
  lemma ReleaseRefused(t: Tables, account: Id, user: Id, key: Key, walletId: Id, ledgerId: Id, app: Id)
    requires BillableAs(t.dir, account, user, app)
    requires forall x <- t.book.ledger ::
               !(x.app == app && x.key == key && x.source == FixedReservation && x.account == account && x.user == user)
    ensures Released(t, account, user, key, walletId, ledgerId) == Err(ReservationNotFound)
  {
    ScopeAnswers(t.dir, account, Some(user));
  }

  lemma ReservationFound(rows: seq<LedgerRow>, app: Id, key: Key, account: Id, user: Id, x: LedgerRow)
    requires UniqueRows(rows) && x in rows && ReservationOf(x, app, key, account, user)
    ensures FindReservation(rows, app, key, account, user) == Some(x)
  {
    var y := FindReservation(rows, app, key, account, user).value;
    OneRowPerKey(rows, app, key, x);
    OneRowPerKey(rows, app, key, y);
  }

  // ---- charges ----

  /** A charge without a key is refused; one of nothing, or of an account that is missing or owned by
      nobody in an enabled product, is none, but one in a product that is not enabled is refused; and
      whatever is not charged leaves the tables alone. */
  lemma NothingToCharge(t: Tables, c: Charge)
    ensures var (t', r) := Charged(t, c);
            && (CleanText(c.key) == "" <==> r == Err(MissingText))
            && (CleanText(c.key) != "" && (c.computed <= 0 || c.account !in t.dir.accounts) ==> r == Ok(None))
            && (CleanText(c.key) != "" && Ownerless(t.dir, c.account) ==> r == Ok(None))
            && (CleanText(c.key) != "" && c.computed > 0 && Disabled(t.dir, c.account) ==> r == Err(AppNotEnabled))
            && (CleanText(c.key) != "" && c.computed > 0 && ResolveScope(t.dir, c.account, None) == Err(MembershipInactive) ==>
                  r == Err(MembershipInactive))
            && (r.Err? || r.value.None? ==> t' == t)
  {
    if CleanText(c.key) != "" { NeverMissingText(t, c); }
  }

  predicate Ownerless(dir: Directory, account: Id) {
    account in dir.accounts && dir.accounts[account].app in dir.world.enabled && ResolveOwner(dir, account) == None
  }

  predicate Disabled(dir: Directory, account: Id) {
    account in dir.accounts && dir.accounts[account].app !in dir.world.enabled
  }

  lemma NeverMissingText(t: Tables, c: Charge)
    requires CleanText(c.key) != ""
    ensures Charged(t, c).1 != Err(MissingText)
  {
  }

  /** A charge already recorded under its key gives back its event, or refuses another account or user. */
  lemma ChargeReplays(t: Tables, c: Charge, user: Id, app: Id, e: CostEvent)
    requires CleanText(c.key) != "" && c.computed > 0 && BillableAs(t.dir, c.account, user, app)
    requires UniqueCosts(t.costs) && e in t.costs && e.app == app && e.key == CleanText(c.key)
    ensures Charged(t, c) == (t, if e.account != c.account || e.user != user then Err(ScopeMismatch) else Ok(Some(e)))
  {
    ScopeAnswers(t.dir, c.account, None);
    var x := FindCost(t.costs, app, CleanText(c.key)).value;
    var i :| 0 <= i < |t.costs| && t.costs[i] == e;
    var j :| 0 <= j < |t.costs| && t.costs[j] == x;
  }

  /** The event and the row of a new charge, field by field. */
  ghost predicate ChargeWritten(t: Tables, c: Charge, user: Id, app: Id, t': Tables, e: CostEvent, row: LedgerRow) {
    && t'.costs == t.costs + [e] && t'.book.ledger == t.book.ledger + [row]
    && e.id == c.eventId && e.account == c.account && e.user == user && e.app == app && e.kind == c.kind
    && e.computed == c.computed && e.key == CleanText(c.key) && e.ledgerId == row.id && e.wallet == row.wallet
    && row.id == c.ledgerId && row.account == c.account && row.user == user && row.app == app && row.entry == Debit
    && row.amount == -c.computed && row.source == (if c.kind == LlmTokens then UsageCharge else ImageCharge)
    && row.sourceId == Trimmed(c.sourceId) && row.key == UsageOf(CleanText(c.key))
    && BalanceOf(t'.book, user, app) == BalanceOf(t.book, user, app) - c.computed
    && t'.dir == t.dir && t'.referrals == t.referrals && t'.reviews == t.reviews && t'.usage == t.usage && t'.reservations == t.reservations
  }

  /** A new charge is written whenever a wallet can be had and the drawn ids are unused, and only then. */
  lemma NewCharge(t: Tables, c: Charge, user: Id, app: Id)
    requires BillingInv(t) && CleanText(c.key) != "" && c.computed > 0 && BillableAs(t.dir, c.account, user, app)
    requires forall e <- t.costs :: !(e.app == app && e.key == CleanText(c.key))
    ensures var (t', r) := Charged(t, c);
            && (r.Ok? <==>
                 && (HasWallet(t.book, user, app) || CanOpen(t.book, c.account, c.walletId))
                 && (forall x <- t.book.ledger :: x.id != c.ledgerId) && (forall e <- t.costs :: e.id != c.eventId))
            && (r.Ok? ==> r.value.Some? && exists row :: ChargeWritten(t, c, user, app, t', r.value.value, row))
            && (r.Err? ==> r == Err(DatabaseError) && t' == t)
  {
    var scope := Scope(user, app);
    ScopeAnswers(t.dir, c.account, None);
    ScopeAnswers(t.dir, c.account, Some(user));
    WalletAnswers(t.book.wallets, c.account, user, app, c.walletId);
    var ensured := EnsuredWallet(t.book.wallets, c.account, user, app, c.walletId);
    if ensured.Ok? {
      var mid := t.book.(wallets := ensured.value.1);
      UsageKeyFree(t, c, app);
      EnsuredUnique(t.book.wallets, c.account, user, app, c.walletId);
      ChargedIs(t, mid, c, scope, ensured.value.0);
      NewChargeInto(t, mid, c, scope, ensured.value.0);
      if Charged(t, c).1.Ok? {
        var posted := Post(mid, UsagePosting(c, scope)).value;
        assert ChargeWritten(t, c, user, app, Charged(t, c).0, Charged(t, c).1.value.value, posted.row);
      }
    }
  }

  lemma UsageKeyFree(t: Tables, c: Charge, app: Id)
    requires BillingInv(t) && forall e <- t.costs :: !(e.app == app && e.key == CleanText(c.key))
    ensures forall x <- t.book.ledger :: !(x.app == app && x.key == UsageOf(CleanText(c.key)))
    ensures UniqueWallets(t.book.wallets)
  {
    assert Unfold(0);
    forall x <- t.book.ledger ensures !(x.app == app && x.key == UsageOf(CleanText(c.key))) {
      if x.key.UsageOf? {
        assert Explained(t.costs, x);
        var e :| e in t.costs && PairOf(e, x);
      }
    }
  }

  function UsagePosting(c: Charge, scope: Scope): Posting {
    Posting(c.account, scope.user, scope.app, -c.computed, Debit, if c.kind == LlmTokens then UsageCharge else ImageCharge,
            Trimmed(c.sourceId), UsageOf(CleanText(c.key)), false, c.walletId, c.ledgerId)
  }

  /** The state a new charge is posted in: the book with the wallet it ensured. */
  ghost predicate Ensured(t: Tables, mid: Book, c: Charge, scope: Scope, wallet: Id) {
    && CleanText(c.key) != "" && c.computed > 0 && BillableAs(t.dir, c.account, scope.user, scope.app)
    && UniqueWallets(t.book.wallets) && UniqueWallets(mid.wallets) && mid == t.book.(wallets := mid.wallets)
    && EnsuredWallet(t.book.wallets, c.account, scope.user, scope.app, c.walletId) == Ok((wallet, mid.wallets))
    && (forall e <- t.costs :: !(e.app == scope.app && e.key == CleanText(c.key)))
  }

  lemma ChargedIs(t: Tables, mid: Book, c: Charge, scope: Scope, wallet: Id)
    requires Ensured(t, mid, c, scope, wallet)
    ensures Charged(t, c) ==
            match Post(mid, UsagePosting(c, scope))
            case Err(e) => (t, Err(e))
            case Ok(posted) =>
              if exists e <- t.costs :: e.id == c.eventId then (t, Err(DatabaseError))
              else
                var e := CostEvent(c.eventId, wallet, c.account, scope.user, scope.app, c.kind, c.computed, posted.row.id, CleanText(c.key));
                (t.(book := posted.book, costs := t.costs + [e]), Ok(Some(e)))
  {
    ScopeAnswers(t.dir, c.account, None);
    ScopeAnswers(t.dir, c.account, Some(scope.user));
    var tables := t.(book := mid);
    assert tables == t.(book := t.book.(wallets := mid.wallets));
    assert Applied(tables, ChargeRequest(c, scope.user)) == Post(mid, UsagePosting(c, scope));
  }

  lemma NewChargeInto(t: Tables, mid: Book, c: Charge, scope: Scope, wallet: Id)
    requires Ensured(t, mid, c, scope, wallet)
    requires forall x <- t.book.ledger :: !(x.app == scope.app && x.key == UsageOf(CleanText(c.key)))
    ensures var r := Post(mid, UsagePosting(c, scope));
            && (r.Ok? <==> forall x <- t.book.ledger :: x.id != c.ledgerId) && (r.Err? ==> r == Err(DatabaseError))
            && (r.Ok? ==> Writes(mid, UsagePosting(c, scope), r.value.book, r.value.row) && r.value.row.wallet == wallet
                          && BalanceOf(r.value.book, scope.user, scope.app) == BalanceOf(t.book, scope.user, scope.app) - c.computed)
  {
    var p := UsagePosting(c, scope);
    WalletAnswers(t.book.wallets, c.account, scope.user, scope.app, c.walletId);
    assert ActiveFor(mid.wallets[wallet], scope.user, scope.app);
    PostAnswers(mid, p);
    if Post(mid, p).Ok? {
      assert ActiveFor(mid.wallets[Post(mid, p).value.row.wallet], scope.user, scope.app);
      SameBalance(t.book, mid, Post(mid, p).value.book, p, wallet);
    }
  }

  lemma SameBalance(b: Book, mid: Book, after: Book, p: Posting, wallet: Id)
    requires UniqueWallets(b.wallets) && UniqueWallets(mid.wallets) && mid.ledger == b.ledger
    requires EnsuredWallet(b.wallets, p.account, p.user, p.app, p.walletId) == Ok((wallet, mid.wallets))
    requires wallet in mid.wallets && ActiveFor(mid.wallets[wallet], p.user, p.app)
    requires after.wallets == mid.wallets[wallet := mid.wallets[wallet].(balance := mid.wallets[wallet].balance + p.amount)]
    ensures BalanceOf(after, p.user, p.app) == BalanceOf(b, p.user, p.app) + p.amount
  {
    assert ActiveFor(after.wallets[wallet], p.user, p.app);
  }

  // ---- texts ----

  /** The text a source is stored as. */
  function Spelled(s: Source): string {
    match s
    case FixedReservation => "fixed_reservation"
    case FixedReservationRelease => "fixed_reservation_release"
    case UsageCharge => "usage_charge"
    case ImageCharge => "image_understanding_charge"
    case ReferralReward => "referral_reward"
    case Other(text) => text
  }

  /** Reading a caller's source loses nothing: it is stored as its cleaned text, and a text that spells one
      of the sources the calls look for is that source. */
  lemma SourceIsText(raw: string)
    ensures Spelled(SourceOf(raw)) == CleanText(raw)
    ensures forall s: Source :: Spelled(s) == CleanText(raw) && !s.Other? ==> SourceOf(raw) == s
  {
  }

  /** Cleaning takes blanks off both ends and nothing else. */
  lemma {:induction false} CleanIs(s: string) returns (before: nat, after: nat)
    ensures before <= after <= |s| && CleanText(s) == s[before..after]
    ensures forall i :: 0 <= i < before || after <= i < |s| ==> IsSpace(s[i])
    ensures CleanText(s) != "" ==> !IsSpace(s[before]) && !IsSpace(s[after - 1])
  {
    before := LeftBlanks(s);
    var left := s[before..];
    var kept := RightBlanks(left);
    after := before + kept;
    assert left[..kept] == s[before..after];
    forall i | after <= i < |s| ensures IsSpace(s[i]) {
      assert s[i] == left[i - before];
    }
  }

  lemma {:induction false} LeftBlanks(s: string) returns (n: nat)
    ensures n <= |s| && TrimLeft(s) == s[n..] && (forall i :: 0 <= i < n ==> IsSpace(s[i])) && (n < |s| ==> !IsSpace(s[n]))
  {
    if s != "" && IsSpace(s[0]) {
      var m := LeftBlanks(s[1..]);
      n := m + 1;
      assert s[1..][m..] == s[n..];
      forall i | 0 < i < n ensures IsSpace(s[i]) {
        assert s[i] == s[1..][i - 1];
      }
    } else {
      n := 0;
    }
  }

  lemma {:induction false} RightBlanks(s: string) returns (n: nat)
    ensures n <= |s| && TrimRight(s) == s[..n] && (forall i :: n <= i < |s| ==> IsSpace(s[i])) && (n > 0 ==> !IsSpace(s[n - 1]))
  {
    if s != "" && IsSpace(s[|s| - 1]) {
      n := RightBlanks(s[..|s| - 1]);
      assert s[..|s| - 1][..n] == s[..n];
    } else {
      n := |s|;
    }
  }
}
