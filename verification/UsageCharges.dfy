/** Chat usage charges from token counts to the ledger row. */
module UsageCharges {
  import opened Wrappers
  import opened Ledger
  import opened Tables
  import opened Billing
  import opened BillingRuns
  import Charges
  import Arithmetic

  function Positive(n: int): nat { if n > 0 then n else 0 }

  function BillableTokens(input: int, output: int): nat { Positive(input) + Positive(output) }

  /** What is charged for the given token counts, whether reported by the provider or estimated. */
  datatype ChatUsage = ChatUsage(
    account: Id, input: int, output: int, multiplier: int, sourceId: Option<string>, key: string,
    eventId: Id, walletId: Id, ledgerId: Id)

  function ChargeFor(u: ChatUsage): Charge {
    Charge(u.account, LlmTokens, Charges.ShellMicros(BillableTokens(u.input, u.output), u.multiplier),
           u.sourceId, u.key, u.eventId, u.walletId, u.ledgerId)
  }

  /** `record_chat_usage_charge`, from the token counts on. */
  method RecordChatUsageCharge(conn: Connection, u: ChatUsage) returns (r: Result<Option<CostEvent>>)
    requires UniqueWallets(conn.wallets)
    modifies conn
    ensures (conn.Snapshot(), r) == Charged(old(conn.Snapshot()), ChargeFor(u))
  {
    var billable := (if u.input > 0 then u.input else 0) + (if u.output > 0 then u.output else 0);
    var computed := Charges.ShellMicros(billable, u.multiplier);
    var c := Charge(u.account, LlmTokens, computed, u.sourceId, u.key, u.eventId, u.walletId, u.ledgerId);
    assert c == ChargeFor(u);
    r := RecordCharge(conn, c);
  }

  lemma NewChargePosts(t: Tables, c: Charge)
    requires BillingInv(t) && Charged(t, c).0 != t
    ensures var t' := Charged(t, c).0;
            |t'.book.ledger| == |t.book.ledger| + 1 && |t'.costs| == |t.costs| + 1
            && PairOf(t'.costs[|t.costs|], t'.book.ledger[|t.book.ledger|])
            && t'.costs[|t.costs|].computed == c.computed > 0
  {
    assert UniqueWallets(t.book.wallets) && Paired(t.book.ledger, t.costs) by { assert Unfold(0); }
    var scope := ResolveScope(t.dir, c.account, None).value;
    ClaimResolved(t.dir, c.account);
    var pair := EnsuredWallet(t.book.wallets, c.account, scope.user, scope.app, c.walletId).value;
    var posted := Applied(t.(book := t.book.(wallets := pair.1)), ChargeRequest(c, scope.user)).value;
    ChargePosts(t, c, scope, pair, posted);
    PostAppends(t.book.(wallets := pair.1), PostingOf(ChargeRequest(c, scope.user), scope, false));
  }

  /** A chat call that is charged, up to 2^44 micros, is debited exactly the ceiling of its billable
      tokens times the multiplier over 1000, in one new row paired with one new cost event. */
  lemma ChatIsChargedExactly(t: Tables, u: ChatUsage)
    requires BillingInv(t) && Charged(t, ChargeFor(u)).0 != t
    requires u.multiplier >= 0 && BillableTokens(u.input, u.output) * u.multiplier <= 1000 * 0x1000_0000_0000
    ensures var (t', micros) := (Charged(t, ChargeFor(u)).0, Charges.ExactMicros(BillableTokens(u.input, u.output), u.multiplier));
            |t'.book.ledger| == |t.book.ledger| + 1 && |t'.costs| == |t.costs| + 1
            && t'.book.ledger[|t.book.ledger|].amount == -micros < 0
            && t'.costs[|t.costs|].computed == micros
            && PairOf(t'.costs[|t.costs|], t'.book.ledger[|t.book.ledger|])
  {
    Charges.ChargeIsExact(BillableTokens(u.input, u.output), u.multiplier);
    NewChargePosts(t, ChargeFor(u));
  }

  /** Said of the counts themselves: a charged call with i input and o output tokens, none negative, is
      debited the least m with 1000 * m >= (i + o) * multiplier. */
  lemma BothSidesAreBilled(t: Tables, u: ChatUsage)
    requires BillingInv(t) && Charged(t, ChargeFor(u)).0 != t
    requires u.input >= 0 && u.output >= 0 && u.multiplier >= 0 && (u.input + u.output) * u.multiplier <= 1000 * 0x1000_0000_0000
    ensures var t' := Charged(t, ChargeFor(u)).0;
            |t'.book.ledger| == |t.book.ledger| + 1
            && var m := -t'.book.ledger[|t.book.ledger|].amount;
               m > 0 && 1000 * m >= (u.input + u.output) * u.multiplier > 1000 * (m - 1)
  {
    ChatIsChargedExactly(t, u);
    Charges.CeilMeans((u.input + u.output) * u.multiplier, 1000);
  }

  /** It does not matter which side the tokens are on, and a negative count is billed as none. */
  lemma SidesExchange(u: ChatUsage)
    ensures ChargeFor(u).computed == ChargeFor(u.(input := u.output, output := u.input)).computed
    ensures u.input < 0 ==> ChargeFor(u).computed == ChargeFor(u.(input := 0)).computed
    ensures u.output < 0 ==> ChargeFor(u).computed == ChargeFor(u.(output := 0)).computed
  {
  }

  /** A call is charged, when its key is new and its account resolves, as soon as any token is billable
      and the multiplier is positive; and never otherwise. */
  lemma ChargedWhenBillable(u: ChatUsage)
    requires u.multiplier >= 0 && (if u.input > 0 then u.input else 0) + (if u.output > 0 then u.output else 0) <= 1_000_000_000
    requires u.multiplier <= 1_000_000
    ensures ChargeFor(u).computed > 0 <==> (u.input > 0 || u.output > 0) && u.multiplier > 0
  {
    var n := (if u.input > 0 then u.input else 0) + (if u.output > 0 then u.output else 0);
    BoundedProduct(n, u.multiplier);
    Charges.ChargeIsExact(n, u.multiplier);
    if n > 0 && u.multiplier > 0 {
      Charges.CeilMeans(Charges.Product(n, u.multiplier), 1000);
    }
  }

  lemma BoundedProduct(n: nat, m: nat)
    requires n <= 1_000_000_000 && m <= 1_000_000
    ensures n * m <= 1_000_000_000_000_000 && (n > 0 && m > 0 ==> n * m > 0)
  {
    Arithmetic.MulOrdered(n, m, 1_000_000);
    if n > 0 && m > 0 {
      Arithmetic.MulOrdered(n, 1, m);
    }
  }
}
