/** Why "grants, reservations and releases never overdraw" needs honest labels: a grant that claims to
    be a fixed reservation can be released, and its release is a debit nothing guards. */
module Mislabelled {
  import opened Wrappers
  import opened Text
  import opened Ledger
  import opened Tables
  import opened Billing
  import opened BillingRuns

  lemma PostCoveredExactly(b: Book, p: Posting)
    requires NoOverdraft(b) && Post(b, p).Ok? && !HasKey(b.ledger, p.app, p.key)
    ensures NoOverdraft(Post(b, p).value.book) <==> BalanceOf(b, p.user, p.app) + p.amount >= 0
  {
    PostAppends(b, p);
    var Posted(b', row) := Post(b, p).value;
    assert b'.wallets[row.wallet].balance == BalanceOf(b, p.user, p.app) + p.amount;
  }

  /** A first release keeps every balance non-negative exactly when the wallet can bear undoing the row
      it finds: always for a real reservation, whose amount is negative, but not for a grant so labelled. */
  lemma ReleaseCoveredExactly(t: Tables, account: Id, user: Id, key: Key, walletId: Id, ledgerId: Id)
    requires NoOverdraft(t.book) && Released(t, account, user, key, walletId, ledgerId).Ok?
    requires !HasKey(t.book.ledger, t.dir.accounts[account].app, ReleaseOf(Print(key)))
    ensures var app := t.dir.accounts[account].app;
            var x := FindReservation(t.book.ledger, app, key, account, user);
            x.Some? && (NoOverdraft(Released(t, account, user, key, walletId, ledgerId).value.book)
                        <==> x.value.amount <= BalanceOf(t.book, user, app))
  {
    var scope := ResolveScope(t.dir, account, Some(user)).value;
    var x := FindReservation(t.book.ledger, scope.app, key, account, user).value;
    PostCoveredExactly(t.book, PostingOf(ReleaseRequest(x, walletId, ledgerId), scope, false));
  }

  // ---- a concrete run that overdraws ----

  function Start(): Tables {
    var world := World({"p"}, map["a" := Scope("u", "p")], map[], {("u", "p")}, map[], 0);
    Tables(Directory(map["a" := Account("p", true)], [], world),
           Book(map["w" := Wallet("a", "u", "p", 0, true)], []), [], map[], map[], map[], map[])
  }

  function Gift(): Op {
    Grant(Request("a", "u", 5, Credit, FixedReservation, None, Plain("g"), "x", "1"))
  }

  function Spend(): Op {
    Reserve(Request("a", "u", -5, Debit, FixedReservation, None, Plain("r"), "x", "2"))
  }

  function Undo(): Op {
    Release("a", "u", Plain("g"), "x", "3")
  }

  function RowAt(id: Id, amount: int, after: int, entry: Entry, source: Source, sourceId: Option<string>, key: Key): LedgerRow {
    LedgerRow(id, "w", "a", "u", "p", entry, source, sourceId, amount, after, key)
  }

  ghost function At(balance: int, rows: seq<LedgerRow>): Tables {
    Start().(book := Book(map["w" := Wallet("a", "u", "p", balance, true)], rows))
  }

  lemma OneWallet(balance: int, rows: seq<LedgerRow>)
    ensures ActiveWallet(At(balance, rows).book.wallets, "u", "p") == Some("w")
    ensures ResolveScope(At(balance, rows).dir, "a", Some("u")) == Ok(Scope("u", "p"))
  {
    assert ActiveFor(At(balance, rows).book.wallets["w"], "u", "p");
  }

  lemma PostAt(balance: int, rows: seq<LedgerRow>, p: Posting)
    requires p.user == "u" && p.app == "p" && p.account == "a" && p.amount != 0
    requires !HasKey(rows, "p", p.key) && (forall r <- rows :: r.id != p.ledgerId)
    requires p.guarded ==> balance + p.amount >= 0
    ensures Post(At(balance, rows).book, p)
         == Ok(Posted(At(balance + p.amount, rows + [RowFor(p, "w", balance + p.amount)]).book, RowFor(p, "w", balance + p.amount)))
  {
    OneWallet(balance, rows);
    var b := At(balance, rows).book;
    assert b.wallets["w" := b.wallets["w"].(balance := balance + p.amount)] == At(balance + p.amount, rows).book.wallets;
  }

  function GiftRow(): LedgerRow { RowAt("1", 5, 5, Credit, FixedReservation, None, Plain("g")) }

  function SpendRow(): LedgerRow { RowAt("2", -5, 0, Debit, FixedReservation, None, Plain("r")) }

  function UndoRow(): LedgerRow {
    RowAt("3", -5, -5, Credit, FixedReservationRelease, CleanOptional(Some("1")), ReleaseOf("g"))
  }

  lemma GiftStep()
    ensures Step(At(0, []), Gift()) == At(5, [GiftRow()])
  {
    OneWallet(0, []);
    PostAt(0, [], PostingOf(Gift().q, Scope("u", "p"), false));
  }

  lemma SpendStep()
    ensures Step(At(5, [GiftRow()]), Spend()) == At(0, [GiftRow(), SpendRow()])
  {
    OneWallet(5, [GiftRow()]);
    PostAt(5, [GiftRow()], PostingOf(Spend().q, Scope("u", "p"), true));
    assert [GiftRow()] + [SpendRow()] == [GiftRow(), SpendRow()];
  }

  lemma UndoStep()
    ensures Step(At(0, [GiftRow(), SpendRow()]), Undo()) == At(-5, [GiftRow(), SpendRow(), UndoRow()])
  {
    var rows := [GiftRow(), SpendRow()];
    OneWallet(0, rows);
    assert FindReservation(rows, "p", Plain("g"), "a", "u") == Some(GiftRow());
    PostAt(0, rows, PostingOf(ReleaseRequest(GiftRow(), "x", "3"), Scope("u", "p"), false));
    assert rows + [UndoRow()] == [GiftRow(), SpendRow(), UndoRow()];
  }

  lemma RunCall(t: Tables, es: seq<Event>, op: Op)
    ensures BillingRuns.Run(t, es + [Call(op)]) == Step(BillingRuns.Run(t, es), op)
  {
    assert (es + [Call(op)])[..|es|] == es;
  }

  lemma ThreeCalls(t: Tables, a: Op, b: Op, c: Op)
    ensures BillingRuns.Run(t, [Call(a), Call(b), Call(c)]) == Step(Step(Step(t, a), b), c)
  {
    RunCall(t, [], a);
    RunCall(t, [Call(a)], b);
    RunCall(t, [Call(a), Call(b)], c);
    assert [] + [Call(a)] == [Call(a)] && [Call(a)] + [Call(b)] == [Call(a), Call(b)];
    assert [Call(a), Call(b)] + [Call(c)] == [Call(a), Call(b), Call(c)];
  }

  lemma StartOk()
    ensures BillingInv(Start()) && NoOverdraft(Start().book)
  {
  }

  /** Five shells granted under a reservation's label, spent on a reservation, and "released" again: the
      balance ends at minus five, though every call succeeds. */
  lemma MislabelledGrantOverdraws()
    ensures BillingInv(Start()) && NoOverdraft(Start().book) && !Proper(Gift())
    ensures BillingRuns.Run(Start(), [Call(Gift()), Call(Spend()), Call(Undo())])
         == At(-5, [GiftRow(), SpendRow(), UndoRow()])
  {
    StartOk();
    assert Start() == At(0, []);
    GiftStep();
    SpendStep();
    UndoStep();
    ThreeCalls(Start(), Gift(), Spend(), Undo());
  }
}
