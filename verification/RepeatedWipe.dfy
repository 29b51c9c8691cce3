/** When exactly a wipe keeps the balances, whoever owns the account; and a run in which it does not:
    the same account wiped twice. */
module RepeatedWipe {
  import opened Wrappers
  import opened Text
  import opened Ledger
  import opened Tables
  import opened Billing
  import opened BillingRuns
  import opened Filters
  import opened Wipe
  import opened WipeAudit
  import Runs

  // ---- the exact condition ----

  function OwnRow(account: Id, app: Id): LedgerRow -> bool {
    (r: LedgerRow) => r.account == account && r.app == app
  }

  /** What the account posted, in its app, into a wallet. */
  function OwnSum(t: Tables, account: Id, wallet: Id): int
    requires account in t.dir.accounts
  {
    SumFor(Filter(t.book.ledger, OwnRow(account, t.dir.accounts[account].app)), wallet)
  }

  /** A wallet that stays loses, unless it is preserved, exactly the account's own rows. */
  lemma {:induction false} SumSplit(rows: seq<LedgerRow>, account: Id, app: Id, doomed: set<Id>, preserved: set<Id>, w: Id)
    requires w !in doomed
    ensures SumFor(Filter(rows, KeepRow(account, app, doomed, preserved)), w)
         == SumFor(rows, w) - if w in preserved then 0 else SumFor(Filter(rows, OwnRow(account, app)), w)
  {
    if rows != [] {
      SumSplit(rows[..|rows| - 1], account, app, doomed, preserved, w);
      SumKept(rows, KeepRow(account, app, doomed, preserved), w);
      SumKept(rows, OwnRow(account, app), w);
    }
  }

  /** A wipe keeps every surviving balance the sum of its surviving rows exactly when it finds an active
      sibling, or what the account itself posted into wallets that are neither deleted nor preserved for
      a referral sums to nothing in each of them. Whether the owner resolves plays no other part. */
  lemma WipeBalancedExactly(t: Tables, account: Id)
    requires Balanced(t.book) && account in t.dir.accounts
    ensures Balanced(Wiped(t, account).book) <==>
            || HasSibling(t, account)
            || forall w <- t.book.wallets ::
                 w !in Doomed(t, account) && w !in Preserved(t, account) ==> OwnSum(t, account, w) == 0
  {
    if !HasSibling(t, account) {
      var (doomed, preserved) := (Doomed(t, account), Preserved(t, account));
      var after := WipedProduct(t, account).book;
      forall w | w in t.book.wallets && w !in doomed
        ensures after.wallets[w].balance
             == SumFor(after.ledger, w) + if w in preserved then 0 else OwnSum(t, account, w)
      {
        SumSplit(t.book.ledger, account, t.dir.accounts[account].app, doomed, preserved, w);
      }
      assert Wiped(t, account).book == after;
    }
  }

  /** What the account posted into the i-th row's wallet before that row. */
  function OwnBefore(rows: seq<LedgerRow>, account: Id, app: Id, i: nat): int
    requires i < |rows|
  {
    SumFor(Filter(rows[..i], OwnRow(account, app)), rows[i].wallet)
  }

  /** The i-th row stays true: it goes, or its wallet is preserved, or nothing of the account's sum is
      missing before it. */
  predicate RowStaysTrue(rows: seq<LedgerRow>, account: Id, app: Id, doomed: set<Id>, preserved: set<Id>, i: nat)
    requires i < |rows|
  {
    KeepRow(account, app, doomed, preserved)(rows[i]) && rows[i].wallet !in preserved ==> OwnBefore(rows, account, app, i) == 0
  }

  ghost predicate RowsStayTrue(rows: seq<LedgerRow>, account: Id, app: Id, doomed: set<Id>, preserved: set<Id>) {
    forall i: nat {:trigger RowStaysTrue(rows, account, app, doomed, preserved, i)} ::
      i < |rows| ==> RowStaysTrue(rows, account, app, doomed, preserved, i)
  }

  lemma RowsStayTrueAppend(rows: seq<LedgerRow>, account: Id, app: Id, doomed: set<Id>, preserved: set<Id>)
    requires rows != []
    ensures RowsStayTrue(rows, account, app, doomed, preserved) <==>
            && RowsStayTrue(rows[..|rows| - 1], account, app, doomed, preserved)
            && RowStaysTrue(rows, account, app, doomed, preserved, |rows| - 1)
  {
    var pre := rows[..|rows| - 1];
    forall i: nat | i < |pre|
      ensures RowStaysTrue(rows, account, app, doomed, preserved, i) == RowStaysTrue(pre, account, app, doomed, preserved, i)
    {
      assert pre[..i] == rows[..i];
    }
    if RowsStayTrue(rows, account, app, doomed, preserved) {
      forall i: nat | i < |pre| ensures RowStaysTrue(pre, account, app, doomed, preserved, i) {
        assert RowStaysTrue(rows, account, app, doomed, preserved, i);
      }
    }
    if RowsStayTrue(pre, account, app, doomed, preserved) && RowStaysTrue(rows, account, app, doomed, preserved, |rows| - 1) {
      forall i: nat | i < |rows| ensures RowStaysTrue(rows, account, app, doomed, preserved, i) {
        if i < |pre| {
          assert RowStaysTrue(pre, account, app, doomed, preserved, i);
        }
      }
    }
  }

  lemma AllRunAppend(wallets: map<Id, Wallet>, rows: seq<LedgerRow>, last: LedgerRow)
    ensures AllRun(wallets, rows + [last]) <==> AllRun(wallets, rows) && RowRuns(wallets, rows + [last], |rows|)
  {
    var all := rows + [last];
    forall i | 0 <= i < |rows| ensures RowRuns(wallets, all, i) == RowRuns(wallets, rows, i) {
      assert all[..i + 1] == rows[..i + 1];
    }
    if AllRun(wallets, all) {
      forall i | 0 <= i < |rows| ensures RowRuns(wallets, rows, i) {
        assert RowRuns(wallets, all, i);
      }
    }
    if AllRun(wallets, rows) && RowRuns(wallets, all, |rows|) {
      forall i | 0 <= i < |all| ensures RowRuns(wallets, all, i) {
        if i < |rows| {
          assert RowRuns(wallets, rows, i);
        }
      }
    }
  }

  /** The last row's running balance after the wipe. */
  lemma LastRuns(wallets: map<Id, Wallet>, rows: seq<LedgerRow>, account: Id, app: Id, doomed: set<Id>, preserved: set<Id>)
    requires rows != [] && RowRuns(wallets, rows, |rows| - 1) && rows[|rows| - 1].wallet !in doomed
    requires KeepRow(account, app, doomed, preserved)(rows[|rows| - 1])
    ensures var (keep, pre) := (KeepRow(account, app, doomed, preserved), rows[..|rows| - 1]);
            var kept := Filter(pre, keep);
            RowRuns(Without(wallets, doomed), kept + [rows[|rows| - 1]], |kept|)
            <==> RowStaysTrue(rows, account, app, doomed, preserved, |rows| - 1)
  {
    var (keep, pre, last) := (KeepRow(account, app, doomed, preserved), rows[..|rows| - 1], rows[|rows| - 1]);
    var all := Filter(pre, keep) + [last];
    assert all == Filter(rows, keep) && all[..|all|] == all && rows[..|rows|] == rows;
    SumSplit(rows, account, app, doomed, preserved, last.wallet);
    SumKept(rows, OwnRow(account, app), last.wallet);
  }

  lemma {:induction false} RunningSplit(wallets: map<Id, Wallet>, rows: seq<LedgerRow>, account: Id, app: Id, doomed: set<Id>, preserved: set<Id>)
    requires AllRun(wallets, rows) && forall w <- doomed :: w in wallets ==> wallets[w].app == app
    ensures AllRun(Without(wallets, doomed), Filter(rows, KeepRow(account, app, doomed, preserved)))
            <==> RowsStayTrue(rows, account, app, doomed, preserved)
  {
    if rows != [] {
      var (keep, pre, last) := (KeepRow(account, app, doomed, preserved), rows[..|rows| - 1], rows[|rows| - 1]);
      assert pre + [last] == rows;
      AllRunAppend(wallets, pre, last);
      RunningSplit(wallets, pre, account, app, doomed, preserved);
      RowsStayTrueAppend(rows, account, app, doomed, preserved);
      if keep(last) {
        LastRuns(wallets, rows, account, app, doomed, preserved);
        AllRunAppend(Without(wallets, doomed), Filter(pre, keep), last);
      } else {
        assert Filter(pre, keep) + [] == Filter(pre, keep);
      }
    }
  }

  /** A wipe keeps every surviving row's running balance true exactly when it finds an active sibling, or
      before each surviving row of a wallet that is not preserved the account's own rows in that wallet
      sum to nothing. */
  lemma WipeRunningExactly(t: Tables, account: Id)
    requires RunningBalances(t.book) && account in t.dir.accounts
    ensures RunningBalances(Wiped(t, account).book) <==>
            || HasSibling(t, account)
            || RowsStayTrue(t.book.ledger, account, t.dir.accounts[account].app, Doomed(t, account), Preserved(t, account))
  {
    if !HasSibling(t, account) {
      var (app, doomed, preserved) := (t.dir.accounts[account].app, Doomed(t, account), Preserved(t, account));
      var after := WipedProduct(t, account).book;
      RunsAre(t.book.wallets, t.book.ledger);
      RunningSplit(t.book.wallets, t.book.ledger, account, app, doomed, preserved);
      RunsAre(after.wallets, after.ledger);
      assert Wiped(t, account).book == after;
    }
  }

  /** So, whoever owns the account, exactly these two conditions decide whether the whole ledger is still
      consistent after a wipe. */
  lemma WipeConsistentExactly(t: Tables, account: Id)
    requires Consistent(t.book) && account in t.dir.accounts
    ensures Consistent(Wiped(t, account).book) <==>
            || HasSibling(t, account)
            || (&& RowsStayTrue(t.book.ledger, account, t.dir.accounts[account].app, Doomed(t, account), Preserved(t, account))
                && forall w <- t.book.wallets ::
                     w !in Doomed(t, account) && w !in Preserved(t, account) ==> OwnSum(t, account, w) == 0)
  {
    WipeBalancedExactly(t, account);
    WipeRunningExactly(t, account);
    if !HasSibling(t, account) {
      UniqueKept(t.book.ledger, KeepRow(account, t.dir.accounts[account].app, Doomed(t, account), Preserved(t, account)));
      assert Indexed(WipedProduct(t, account).book);
    }
  }

  /** So a call that finds the owner and every row at home always keeps them. */
  lemma OwnedWipeBalanced(t: Tables, homes: Homes, account: Id)
    requires RunningBalances(t.book) && Balanced(t.book) && AtHome(t.book.ledger, homes) && Settled(t.dir, homes)
    requires account in t.dir.accounts && ResolveOwner(t.dir, account).Some?
    ensures Balanced(Wiped(t, account).book)
  {
    WipeBalancedExactly(t, account);
    forall w | w in t.book.wallets && w !in Doomed(t, account) && w !in Preserved(t, account)
      ensures OwnSum(t, account, w) == 0
    {
      var own := Filter(t.book.ledger, OwnRow(account, t.dir.accounts[account].app));
      forall r <- own ensures r.wallet != w {
        var i :| 0 <= i < |t.book.ledger| && t.book.ledger[i] == r;
        SettledOwner(t.dir, homes, account);
        assert t.book.wallets[r.wallet].user == r.user;
      }
      NoRowsNoSum(own, w);
    }
  }

  // ---- a run that wipes one account twice ----

  /** Accounts a and b, both bound to the user u of the app p; nothing has been posted. */
  function Start(): Tables {
    var bindings := [Binding("a", "u", "p", true), Binding("b", "u", "p", true)];
    Tables(Directory(map["a" := Account("p", true), "b" := Account("p", true)], bindings,
                     World({"p"}, map[], map[], {("u", "p")}, map[], 0)),
           Book(map[], []), [], map[], map[], map[], map[])
  }

  function GiftTo(account: Id, amount: int, key: string, id: Id): Runs.Action {
    Runs.Bill(Grant(Request(account, "u", amount, Credit, Other("gift"), None, Plain(key), "w", id)))
  }

  function RowOf(account: Id, amount: int, after: int, key: string, id: Id): LedgerRow {
    LedgerRow(id, "w", account, "u", "p", Credit, Other("gift"), None, amount, after, Plain(key))
  }

  function First(): LedgerRow { RowOf("b", 3, 3, "g1", "1") }

  function Second(): LedgerRow { RowOf("a", 5, 8, "g2", "2") }

  function Posted(balance: int, rows: seq<LedgerRow>): Tables {
    Start().(book := Book(map["w" := Wallet("b", "u", "p", balance, true)], rows))
  }

  lemma ScopesResolve()
    ensures ResolveScope(Start().dir, "a", Some("u")) == Ok(Scope("u", "p"))
    ensures ResolveScope(Start().dir, "b", Some("u")) == Ok(Scope("u", "p"))
  {
    assert FirstOwner(Start().dir.bindings, "a") == Some("u");
    assert Start().dir.bindings[1..][0] == Binding("b", "u", "p", true);
    assert FirstOwner(Start().dir.bindings, "b") == Some("u");
  }

  lemma FirstGift()
    ensures Runs.After(Start(), GiftTo("b", 3, "g1", "1")) == Posted(3, [First()])
  {
    ScopesResolve();
    assert ActiveWallet(Start().book.wallets, "u", "p") == None;
  }

  lemma SecondGift()
    ensures Runs.After(Posted(3, [First()]), GiftTo("a", 5, "g2", "2")) == Posted(8, [First(), Second()])
  {
    ScopesResolve();
    var b := Posted(3, [First()]).book;
    assert ActiveFor(b.wallets["w"], "u", "p");
    assert ActiveWallet(b.wallets, "u", "p") == Some("w");
    assert b.wallets["w" := b.wallets["w"].(balance := 8)] == Posted(8, []).book.wallets;
    assert [First()] + [Second()] == [First(), Second()];
  }

  /** After the first wipe of a: its binding is gone, it is inactive, and nothing else has changed. */
  function OnceWiped(): Tables {
    var t := Posted(8, [First(), Second()]);
    t.(dir := t.dir.(bindings := [Binding("b", "u", "p", true)],
                     accounts := map["a" := Account("p", false), "b" := Account("p", true)]))
  }

  lemma SiblingFound()
    ensures ResolveOwner(Start().dir, "a") == Some("u")
    ensures HasSibling(Posted(8, [First(), Second()]), "a")
  {
    var t := Posted(8, [First(), Second()]);
    ScopesResolve();
    assert t.dir.bindings[1] == Binding("b", "u", "p", true);
    assert OwnedSibling(t, "a", "u", "p");
  }

  lemma BindingGone()
    ensures Filter(Start().dir.bindings, OtherThan("a")) == [Binding("b", "u", "p", true)]
  {
    var (keep, b) := (OtherThan("a"), Start().dir.bindings);
    assert b[..1] == [Binding("a", "u", "p", true)] && b[..1][..0] == [];
    assert Filter(b[..1], keep) == [];
    assert Filter(b, keep) == [] + [Binding("b", "u", "p", true)];
  }

  lemma FirstWipe()
    ensures Runs.After(Posted(8, [First(), Second()]), Runs.WipeAccount("a")) == OnceWiped()
  {
    SiblingFound();
    BindingGone();
    assert WipedBesideSibling(Posted(8, [First(), Second()]), "a") == Posted(8, [First(), Second()]);
  }

  lemma SecondPlan()
    ensures ResolveOwner(OnceWiped().dir, "a") == None && !HasSibling(OnceWiped(), "a")
    ensures Doomed(OnceWiped(), "a") == {} && Preserved(OnceWiped(), "a") == {}
  {
    var t := OnceWiped();
    assert t.dir.bindings[1..] == [];
    assert Candidates(t.book.wallets, "a", "a", "p") == {};
  }

  lemma OwnRowsLost(t: Tables, account: Id, w: Id)
    requires Balanced(t.book) && account in t.dir.accounts && !HasSibling(t, account)
    requires w in t.book.wallets && w !in Doomed(t, account) && w !in Preserved(t, account) && OwnSum(t, account, w) != 0
    ensures !Balanced(Runs.After(t, Runs.WipeAccount(account)).book)
  {
    WipeBalancedExactly(t, account);
  }

  lemma OnceWipedBalanced()
    ensures Balanced(OnceWiped().book) && OwnSum(OnceWiped(), "a", "w") == 5
  {
    SumsOf();
  }

  lemma SecondWipe()
    ensures !Balanced(Runs.After(OnceWiped(), Runs.WipeAccount("a")).book)
  {
    OnceWipedBalanced();
    SecondPlan();
    assert "w" in OnceWiped().book.wallets;
    OwnRowsLost(OnceWiped(), "a", "w");
  }

  lemma SumsOf()
    ensures SumFor([First(), Second()], "w") == 8
    ensures SumFor(Filter([First(), Second()], OwnRow("a", "p")), "w") == 5
  {
    var rows := [First(), Second()];
    assert rows[..1] == [First()] && rows[..1][..0] == [] && [First()][..0] == [];
    assert Filter(rows[..1], OwnRow("a", "p")) == [];
    assert Filter(rows, OwnRow("a", "p")) == [] + [Second()] == [Second()];
    assert [Second()][..0] == [];
  }

  lemma RunMore(t: Tables, run: seq<Runs.Action>, a: Runs.Action)
    ensures Runs.Run(t, run + [a]) == Runs.After(Runs.Run(t, run), a)
  {
    assert (run + [a])[..|run|] == run;
  }

  lemma ThreeActions(t: Tables, a: Runs.Action, b: Runs.Action, c: Runs.Action)
    ensures Runs.Run(t, [a, b, c]) == Runs.After(Runs.After(Runs.After(t, a), b), c)
  {
    RunMore(t, [], a);
    RunMore(t, [a], b);
    RunMore(t, [a, b], c);
    assert [] + [a] == [a] && [a] + [b] == [a, b] && [a, b] + [c] == [a, b, c];
  }

  /** From empty tables: b is granted three shells and a five, into the wallet they share; then a is
      wiped, which keeps everything for b, and wiped again. The second call finds no owner and takes
      a's row, but neither the wallet nor its balance. */
  lemma WipedTwiceBreaksBalance()
    ensures ResolveOwner(Start().dir, "a") == Some("u") && ResolveOwner(OnceWiped().dir, "a") == None
    ensures var run := [GiftTo("b", 3, "g1", "1"), GiftTo("a", 5, "g2", "2"), Runs.WipeAccount("a")];
            Runs.Run(Start(), run) == OnceWiped() && !Balanced(Runs.Run(Start(), run + [Runs.WipeAccount("a")]).book)
  {
    FirstGift();
    SecondGift();
    FirstWipe();
    SecondPlan();
    SecondWipe();
    ThreeActions(Start(), GiftTo("b", 3, "g1", "1"), GiftTo("a", 5, "g2", "2"), Runs.WipeAccount("a"));
    RunMore(Start(), [GiftTo("b", 3, "g1", "1"), GiftTo("a", 5, "g2", "2"), Runs.WipeAccount("a")], Runs.WipeAccount("a"));
  }
}
