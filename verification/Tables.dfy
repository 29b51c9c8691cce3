/** The database tables the billing, referral, quota and wipe code share, as values, and the
    connection object through which that code updates them in place. */
module Tables {
  import opened Wrappers
  import opened Ledger

  // ---- who owns an account ----

  datatype Account = Account(app: Id, active: bool)

  /** A row of account_owner_bindings; the table is kept in (created_at, id) order. */
  datatype Binding = Binding(account: Id, user: Id, app: Id, active: bool)

  datatype Resident = Resident(owner: Id, dismissed: bool)

  /** A message row; `meaningful` is the verdict of the text heuristic on its content and type. */
  datatype Message = Message(account: Id, inbound: bool, fromUser: bool, meaningful: bool)

  /** What the modelled calls only read. `enabled` holds the registered apps, `runtimeOwners` the
      active runtime_ownerships, `residents` maps a runtime account to its universe's owner,
      `members` holds the active product memberships, and `now` is the transaction's clock. */
  datatype World = World(
    enabled: set<Id>, runtimeOwners: map<Id, Scope>, residents: map<Id, Resident>, members: set<(Id, Id)>,
    messages: map<int, Message>, now: int)

  datatype Directory = Directory(accounts: map<Id, Account>, bindings: seq<Binding>, world: World)

  datatype Scope = Scope(user: Id, app: Id)

  function FirstOwner(bindings: seq<Binding>, account: Id): (r: Option<Id>)
    ensures r.Some? ==> exists b <- bindings :: b.active && b.account == account && b.user == r.value
  {
    if bindings == [] then None
    else if bindings[0].active && bindings[0].account == account then Some(bindings[0].user)
    else
      assert forall b <- bindings[1..] :: b in bindings;
      FirstOwner(bindings[1..], account)
  }

  /** `resolve_owner_platform_user_id`: runtime ownership, then the earliest active binding, then the
      owner of the universe the account lives in. */
  function ResolveOwner(dir: Directory, account: Id): Option<Id> {
    if account in dir.world.runtimeOwners then Some(dir.world.runtimeOwners[account].user)
    else match FirstOwner(dir.bindings, account)
      case Some(user) => Some(user)
      case None => if account in dir.world.residents then Some(dir.world.residents[account].owner) else None
  }

  /** `_resolve_billing_scope_in_conn`; a claimed user must be the resolved one. */
  function ResolveScope(dir: Directory, account: Id, claimed: Option<Id>): Result<Scope> {
    if account !in dir.accounts then Err(AccountNotFound)
    else
      var app := dir.accounts[account].app;
      if app !in dir.world.enabled then Err(AppNotEnabled)
      else match ResolveOwner(dir, account)
        case None => Err(OwnerNotFound)
        case Some(user) =>
          if claimed.Some? && claimed.value != user then Err(ScopeMismatch)
          else if (user, app) !in dir.world.members then Err(MembershipInactive)
          else Ok(Scope(user, app))
  }

  /** Each account's fixed home: the only user that ever owns it, and its app. */
  type Homes = map<Id, Scope>

  /** No account ever resolves to a user other than its home's, whichever rows are removed. */
  ghost predicate Settled(dir: Directory, homes: Homes) {
    && (forall a <- dir.accounts :: a in homes && homes[a].app == dir.accounts[a].app)
    && (forall a <- dir.world.runtimeOwners :: a in homes && homes[a].user == dir.world.runtimeOwners[a].user)
    && (forall b <- dir.bindings :: b.active ==> b.account in homes && homes[b.account].user == b.user)
    && (forall a <- dir.world.residents :: a in homes && homes[a].user == dir.world.residents[a].owner)
  }

  lemma SettledOwner(dir: Directory, homes: Homes, account: Id)
    requires Settled(dir, homes) && ResolveOwner(dir, account).Some?
    ensures account in homes && ResolveOwner(dir, account).value == homes[account].user
  {
  }

  // ---- cost events, referrals, quota ----

  datatype CostKind = LlmTokens | ImageUnderstanding

  datatype CostEvent = CostEvent(
    id: Id, wallet: Id, account: Id, user: Id, app: Id, kind: CostKind, computed: int, ledgerId: Id, key: string)

  datatype Status = PendingRegistration | Registered | Bound | Qualified | Rewarded
  datatype Review = Pending | Passed | Failed

  /** A referral_relationships row; the metadata fields the code reads back are typed. */
  datatype Relationship = Relationship(
    inviter: Id, invitee: Id, app: Id, status: Status, review: Review, count: nat, candidates: seq<int>,
    softReview: bool, boundAccount: Option<Id>, qualifiedAt: Option<int>, releaseAfter: Option<int>,
    blocked: bool, rewardId: Option<Id>, rewardedAt: Option<int>, createdAt: int)

  datatype QuotaKey = QuotaKey(subject: Id, app: Id, date: string)
  datatype Usage = Usage(account: Id, count: nat)
  datatype Reservation = Reservation(key: QuotaKey, account: Id, expiresAt: int)

  datatype Tables = Tables(
    dir: Directory, book: Book, costs: seq<CostEvent>, referrals: map<Id, Relationship>,
    reviews: map<Id, Review>, usage: map<QuotaKey, Usage>, reservations: map<Id, Reservation>)

  /** One open transaction on the tables. Committing is doing nothing; a failed call rolls back. */
  class Connection {
    var world: World
    var accounts: map<Id, Account>
    var bindings: seq<Binding>
    var wallets: map<Id, Wallet>
    var ledger: seq<LedgerRow>
    var costs: seq<CostEvent>
    var referrals: map<Id, Relationship>
    var reviews: map<Id, Review>
    var usage: map<QuotaKey, Usage>
    var reservations: map<Id, Reservation>

    constructor (t: Tables)
      ensures Snapshot() == t
    {
      world, accounts, bindings := t.dir.world, t.dir.accounts, t.dir.bindings;
      wallets, ledger, costs := t.book.wallets, t.book.ledger, t.costs;
      referrals, reviews, usage, reservations := t.referrals, t.reviews, t.usage, t.reservations;
    }

    function Snapshot(): Tables
      reads this
    {
      Tables(Directory(accounts, bindings, world), Book(wallets, ledger), costs, referrals, reviews, usage, reservations)
    }

    /** The rollback `connect` performs when its body raises. */
    method Rollback(t: Tables)
      modifies this
      ensures Snapshot() == t
    {
      world, accounts, bindings := t.dir.world, t.dir.accounts, t.dir.bindings;
      wallets, ledger, costs := t.book.wallets, t.book.ledger, t.costs;
      referrals, reviews, usage, reservations := t.referrals, t.reviews, t.usage, t.reservations;
    }
  }
}
