/** Runs of quota calls in any order, with replays: tokens end once, usage counts them, the cap holds. */
module QuotaRuns {
  import opened Wrappers
  import opened Tables
  import opened Quota

  datatype Act =
    | Reserve(account: Id, date: string, limit: int, ttlMinutes: int, token: Id)
    | Confirm(id: Option<Id>)
    | Rollback(id: Option<Id>)
    | Reclaim(now: int, most: nat, ids: set<Id>)
    | Increment(account: Id, date: string)
    | ChangeDirectory(dir: Directory)

  /** The tables, and what the calls so far did to each token: when one call ends a token twice, or two
      calls end it, its multiplicity shows. */
  datatype History = History(
    t: Tables, issued: map<Id, QuotaKey>, confirmed: multiset<Id>, rolledBack: multiset<Id>,
    expired: multiset<Id>, direct: multiset<QuotaKey>)

  /** The tokens whose rows one call removed. */
  function Gone(t: Tables, t': Tables): multiset<Id> {
    multiset(t.reservations.Keys - t'.reservations.Keys)
  }

  datatype Fate = Confirmed | RolledBack | Expired

  /** The history after a call that left tables `t'` and ends, in one way, every token whose row it removed. */
  function Ended(h: History, t': Tables, fate: Fate): History {
    var gone := Gone(h.t, t');
    match fate
    case Confirmed => h.(t := t', confirmed := h.confirmed + gone)
    case RolledBack => h.(t := t', rolledBack := h.rolledBack + gone)
    case Expired => h.(t := t', expired := h.expired + gone)
  }

  function AfterReserve(h: History, t': Tables, r: Result<Option<Id>>): History {
    var h' := Ended(h, t', Expired);
    if r.Ok? && r.value.Some? && r.value.value in t'.reservations
    then h'.(issued := h.issued[r.value.value := t'.reservations[r.value.value].key])
    else h'
  }

  function AfterIncrement(h: History, t': Tables, account: Id, date: string): History {
    var scope := QuotaScope(h.t.dir, account);
    h.(t := t', direct := if scope.Err? then h.direct
                          else h.direct + multiset{QuotaKey(scope.value.user, scope.value.app, date)})
  }

  function After(h: History, a: Act): History {
    match a
    case Reserve(account, date, limit, ttl, token) =>
      var (t', r) := QuotaReserved(h.t, account, date, limit, ttl, token);
      AfterReserve(h, t', r)
    case Confirm(id) => Ended(h, QuotaConfirmed(h.t, id).0, Confirmed)
    case Rollback(id) => Ended(h, QuotaRolledBack(h.t, id), RolledBack)
    case Reclaim(_, _, ids) => Ended(h, h.t.(reservations := Drop(h.t.reservations, ids)), Expired)
    case Increment(account, date) => AfterIncrement(h, UsageIncremented(h.t, account, date).0, account, date)
    case ChangeDirectory(dir) => h.(t := h.t.(dir := dir))
  }

  /** New tokens are never drawn twice. */
  ghost predicate Possible(h: History, a: Act) {
    match a
    case Reserve(_, _, _, _, token) => token !in h.issued && token != ""
    case Reclaim(now, most, ids) => OldestExpired(h.t.reservations, now, most, ids)
    case _ => true
  }

  function Run(h: History, run: seq<Act>): History {
    if run == [] then h else After(Run(h, run[..|run| - 1]), run[|run| - 1])
  }

  ghost predicate PossibleRun(h: History, run: seq<Act>) {
    run != [] ==> PossibleRun(h, run[..|run| - 1]) && Possible(Run(h, run[..|run| - 1]), run[|run| - 1])
  }

  function Start(t: Tables): History {
    History(t, map x <- t.reservations :: t.reservations[x].key, multiset{}, multiset{}, multiset{}, multiset{})
  }

  function Ends(h: History, token: Id): nat {
    h.confirmed[token] + h.rolledBack[token] + h.expired[token]
  }

  function One(b: bool): nat { if b then 1 else 0 }

  predicate Once(h: History, x: Id) {
    One(x in h.t.reservations) + Ends(h, x) == One(x in h.issued)
  }

  /** Each issued token is either stored or has ended, exactly once. */
  ghost predicate TokensOnce(h: History) {
    forall x {:trigger Once(h, x)} :: Once(h, x)
  }

  ghost predicate KeysKept(h: History) {
    forall x <- h.t.reservations :: x in h.issued && h.issued[x] == h.t.reservations[x].key
  }

  function ConfirmedFor(h: History, key: QuotaKey): set<Id> {
    set x <- h.issued | h.issued[x] == key && x in h.confirmed
  }

  ghost predicate CountsOk(h: History, start: map<QuotaKey, Usage>) {
    forall key {:trigger ConfirmedFor(h, key)} ::
      UsedFor(h.t.usage, key) == UsedFor(start, key) + h.direct[key] + |ConfirmedFor(h, key)|
  }

  ghost predicate HistoryOk(h: History, start: map<QuotaKey, Usage>) {
    TokensOnce(h) && KeysKept(h) && CountsOk(h, start)
  }

  // ---- what each call keeps ----

  ghost predicate OnlyFewer(rs: map<Id, Reservation>, rs': map<Id, Reservation>) {
    forall x <- rs' :: x in rs && rs'[x] == rs[x]
  }

  /** Taking rows away and recording their tokens once keeps the books on tokens. */
  lemma EndedKeeps(h: History, t': Tables, fate: Fate)
    requires TokensOnce(h) && KeysKept(h) && OnlyFewer(h.t.reservations, t'.reservations)
    ensures TokensOnce(Ended(h, t', fate)) && KeysKept(Ended(h, t', fate))
  {
    forall x ensures Once(Ended(h, t', fate), x) {
      assert Once(h, x);
      assert Gone(h.t, t')[x] == One(x in h.t.reservations) - One(x in t'.reservations);
    }
  }

  lemma ReserveKeeps(h: History, t': Tables, rs: map<Id, Reservation>, token: Id, v: Reservation)
    requires TokensOnce(h) && KeysKept(h) && token !in h.issued && OnlyFewer(h.t.reservations, rs)
    requires t'.reservations == rs[token := v]
    ensures TokensOnce(AfterReserve(h, t', Ok(Some(token)))) && KeysKept(AfterReserve(h, t', Ok(Some(token))))
  {
    var pruned := h.t.(reservations := rs);
    EndedKeeps(h, pruned, Expired);
    assert Once(h, token);
    assert h.t.reservations.Keys - t'.reservations.Keys == h.t.reservations.Keys - rs.Keys;
    TokenIssued(Ended(h, pruned, Expired), AfterReserve(h, t', Ok(Some(token))), token, v);
  }

  lemma TokenIssued(h: History, h': History, token: Id, v: Reservation)
    requires TokensOnce(h) && KeysKept(h) && token !in h.issued
    requires h'.t.reservations == h.t.reservations[token := v] && h'.issued == h.issued[token := v.key]
    requires h'.confirmed == h.confirmed && h'.rolledBack == h.rolledBack && h'.expired == h.expired
    ensures TokensOnce(h') && KeysKept(h')
  {
    assert Once(h, token);
    forall x ensures Once(h', x) {
      assert Once(h, x);
    }
  }

  lemma TokensKeep(h: History, a: Act)
    requires TokensOnce(h) && KeysKept(h) && Possible(h, a)
    ensures TokensOnce(After(h, a)) && KeysKept(After(h, a))
  {
    match a
    case Reserve(account, date, limit, ttl, token) =>
      var (t', r) := QuotaReserved(h.t, account, date, limit, ttl, token);
      if r == Ok(Some(token)) {
        var Scope(user, app) := QuotaScope(h.t.dir, account).value;
        ReserveKeeps(h, t', Pruned(h.t.reservations, user, app, h.t.dir.world.now), token, t'.reservations[token]);
      } else {
        EndedKeeps(h, t', Expired);
      }
    case Confirm(id) => EndedKeeps(h, QuotaConfirmed(h.t, id).0, Confirmed);
    case Rollback(id) => EndedKeeps(h, QuotaRolledBack(h.t, id), RolledBack);
    case Reclaim(_, _, ids) => EndedKeeps(h, h.t.(reservations := Drop(h.t.reservations, ids)), Expired);
    case _ => SameTokens(h, After(h, a));
  }

  lemma SameTokens(h: History, h': History)
    requires TokensOnce(h) && KeysKept(h) && h'.t.reservations == h.t.reservations && h'.issued == h.issued
    requires h'.confirmed == h.confirmed && h'.rolledBack == h.rolledBack && h'.expired == h.expired
    ensures TokensOnce(h') && KeysKept(h')
  {
    forall x ensures Once(h', x) {
      assert Once(h, x);
    }
  }

  lemma SameConfirmed(h: History, h': History)
    requires h'.confirmed == h.confirmed && h'.issued.Keys >= h.issued.Keys
    requires forall x <- h.issued :: h'.issued[x] == h.issued[x]
    requires forall x <- h'.issued :: x in h.issued || x !in h.confirmed
    ensures forall key {:trigger ConfirmedFor(h', key)} :: ConfirmedFor(h', key) == ConfirmedFor(h, key)
  {
    forall key ensures ConfirmedFor(h', key) == ConfirmedFor(h, key) {
      assert forall x :: x in ConfirmedFor(h', key) <==> x in ConfirmedFor(h, key);
    }
  }

  lemma OneMoreConfirmed(h: History, h': History, token: Id)
    requires Once(h, token) && token in h.t.reservations && token in h.issued
    requires h'.issued == h.issued && h'.confirmed == h.confirmed + multiset{token}
    ensures forall k :: |ConfirmedFor(h', k)| == |ConfirmedFor(h, k)| + One(k == h.issued[token])
  {
    forall k ensures |ConfirmedFor(h', k)| == |ConfirmedFor(h, k)| + One(k == h.issued[token]) {
      assert ConfirmedFor(h', k) == ConfirmedFor(h, k) + if k == h.issued[token] then {token} else {};
    }
  }

  lemma ConfirmCounts(h: History, a: Act, start: map<QuotaKey, Usage>)
    requires HistoryOk(h, start) && a.Confirm?
    ensures CountsOk(After(h, a), start)
  {
    var h' := After(h, a);
    if h'.t == h.t {
      assert h.t.reservations.Keys - h'.t.reservations.Keys == {};
      SameConfirmed(h, h');
    } else {
      var token := a.id.value;
      assert Once(h, token);
      assert h.t.reservations.Keys - h'.t.reservations.Keys == {token};
      OneMoreConfirmed(h, h', token);
    }
    forall key ensures UsedFor(h'.t.usage, key) == UsedFor(start, key) + h'.direct[key] + |ConfirmedFor(h', key)| {
      assert UsedFor(h.t.usage, key) == UsedFor(start, key) + h.direct[key] + |ConfirmedFor(h, key)|;
    }
  }

  lemma IncrementCounts(h: History, account: Id, date: string, start: map<QuotaKey, Usage>)
    requires HistoryOk(h, start)
    ensures CountsOk(AfterIncrement(h, UsageIncremented(h.t, account, date).0, account, date), start)
  {
    var h' := AfterIncrement(h, UsageIncremented(h.t, account, date).0, account, date);
    SameConfirmed(h, h');
    forall key ensures UsedFor(h'.t.usage, key) == UsedFor(start, key) + h'.direct[key] + |ConfirmedFor(h', key)| {
      assert |ConfirmedFor(h', key)| == |ConfirmedFor(h, key)|;
    }
  }

  lemma ReserveCounts(h: History, t': Tables, r: Result<Option<Id>>, start: map<QuotaKey, Usage>)
    requires HistoryOk(h, start) && t'.usage == h.t.usage
    requires r.Ok? && r.value.Some? ==> r.value.value !in h.issued
    ensures CountsOk(AfterReserve(h, t', r), start)
  {
    var h' := AfterReserve(h, t', r);
    if r.Ok? && r.value.Some? {
      assert Once(h, r.value.value);
    }
    SameConfirmed(h, h');
    SameCounts(h, h', start);
  }

  lemma CountsKeep(h: History, a: Act, start: map<QuotaKey, Usage>)
    requires HistoryOk(h, start) && Possible(h, a)
    ensures CountsOk(After(h, a), start)
  {
    match a
    case Confirm(_) => ConfirmCounts(h, a, start);
    case Increment(account, date) => IncrementCounts(h, account, date, start);
    case Reserve(account, date, limit, ttl, token) =>
      var (t', r) := QuotaReserved(h.t, account, date, limit, ttl, token);
      ReserveCounts(h, t', r, start);
    case _ =>
      SameConfirmed(h, After(h, a));
      SameCounts(h, After(h, a), start);
  }

  lemma SameCounts(h: History, h': History, start: map<QuotaKey, Usage>)
    requires CountsOk(h, start) && h'.t.usage == h.t.usage && h'.direct == h.direct
    requires forall key {:trigger ConfirmedFor(h', key)} :: ConfirmedFor(h', key) == ConfirmedFor(h, key)
    ensures CountsOk(h', start)
  {
    forall key ensures UsedFor(h'.t.usage, key) == UsedFor(start, key) + h'.direct[key] + |ConfirmedFor(h', key)| {
      assert ConfirmedFor(h', key) == ConfirmedFor(h, key);
    }
  }

  /** Over every run of quota calls, replays and directory changes included: each token is stored or
      ended exactly once, and usage counts exactly the confirmed tokens and the direct increments. */
  lemma {:induction false} RunKeeps(t: Tables, run: seq<Act>)
    requires PossibleRun(Start(t), run)
    ensures HistoryOk(Run(Start(t), run), t.usage)
  {
    if run == [] {
      forall key ensures |ConfirmedFor(Start(t), key)| == 0 {
        assert ConfirmedFor(Start(t), key) == {};
      }
    } else {
      var h := Run(Start(t), run[..|run| - 1]);
      RunKeeps(t, run[..|run| - 1]);
      TokensKeep(h, run[|run| - 1]);
      CountsKeep(h, run[|run| - 1], t.usage);
    }
  }

  /** No token is ever confirmed twice, or confirmed and also rolled back or expired. */
  lemma TokenEndsAtMostOnce(t: Tables, run: seq<Act>, token: Id)
    requires PossibleRun(Start(t), run)
    ensures Ends(Run(Start(t), run), token) <= 1
  {
    RunKeeps(t, run);
    var h := Run(Start(t), run);
    assert Once(h, token);
  }

  // ---- the cap ----

  /** Uses and stored reservations of the key stay within the cap. */
  ghost predicate Capped(t: Tables, key: QuotaKey, cap: nat) {
    UsedFor(t.usage, key) + |Held(t.reservations, key)| <= cap
  }

  predicate CountsOn(h: History, account: Id, date: string, key: QuotaKey) {
    var scope := QuotaScope(h.t.dir, account);
    scope.Ok? && QuotaKey(scope.value.user, scope.value.app, date) == key
  }

  /** A reserve for the key uses a limit in 1..cap, and nothing counts its use directly. */
  ghost predicate Within(h: History, a: Act, key: QuotaKey, cap: nat) {
    match a
    case Reserve(account, date, limit, _, _) =>
      CountsOn(h, account, date, key) ==> 1 <= limit <= cap
    case Increment(account, date) =>
      !CountsOn(h, account, date, key)
    case _ => true
  }

  ghost predicate RunWithin(h: History, run: seq<Act>, key: QuotaKey, cap: nat) {
    run != [] ==> RunWithin(h, run[..|run| - 1], key, cap) && Within(Run(h, run[..|run| - 1]), run[|run| - 1], key, cap)
  }

  lemma FewerHeld(rs: map<Id, Reservation>, rs': map<Id, Reservation>, key: QuotaKey)
    requires forall x <- rs' :: x in rs && rs'[x] == rs[x]
    ensures Held(rs', key) <= Held(rs, key) && |Held(rs', key)| <= |Held(rs, key)|
  {
    assert Held(rs', key) <= Held(rs, key);
    SubsetSize(Held(rs', key), Held(rs, key));
  }

  lemma SubsetSize(a: set<Id>, b: set<Id>)
    requires a <= b
    ensures |a| <= |b|
  {
    assert b == a + (b - a);
  }

  /** One more row under a key k, beside what pruning left. */
  lemma HeldAfterInsert(rs: map<Id, Reservation>, token: Id, r: Reservation, key: QuotaKey)
    requires token !in rs
    ensures |Held(rs[token := r], key)| == |Held(rs, key)| + One(r.key == key)
  {
    assert Held(rs[token := r], key) == Held(rs, key) + if r.key == key then {token} else {};
  }

  lemma ReserveCapped(h: History, a: Act, key: QuotaKey, cap: nat)
    requires Capped(h.t, key, cap) && a.Reserve? && Within(h, a, key, cap)
    ensures Capped(After(h, a).t, key, cap)
  {
    var (t', r) := QuotaReserved(h.t, a.account, a.date, a.limit, a.ttlMinutes, a.token);
    if t' != h.t {
      var Scope(user, app) := QuotaScope(h.t.dir, a.account).value;
      var rs := Pruned(h.t.reservations, user, app, h.t.dir.world.now);
      FewerHeld(h.t.reservations, rs, key);
      if r == Ok(Some(a.token)) {
        HeldAfterInsert(rs, a.token, t'.reservations[a.token], key);
      }
    }
  }

  lemma ConfirmCapped(h: History, a: Act, key: QuotaKey, cap: nat)
    requires Capped(h.t, key, cap) && a.Confirm?
    ensures Capped(After(h, a).t, key, cap)
  {
    var t' := After(h, a).t;
    if t' != h.t {
      var (token, rs) := (a.id.value, h.t.reservations);
      assert Held(t'.reservations, key) == Held(rs, key) - if rs[token].key == key then {token} else {};
    }
  }

  lemma ActCapped(h: History, a: Act, key: QuotaKey, cap: nat)
    requires Capped(h.t, key, cap) && Within(h, a, key, cap)
    ensures Capped(After(h, a).t, key, cap)
  {
    match a
    case Reserve(_, _, _, _, _) => ReserveCapped(h, a, key, cap);
    case Confirm(_) => ConfirmCapped(h, a, key, cap);
    case _ => FewerHeld(h.t.reservations, After(h, a).t.reservations, key);
  }

  /** When every reserve for a (subject, app, date) asks for a limit in 1..L, uses and stored
      reservations together never exceed L, whatever is confirmed, rolled back, expired or replayed. */
  lemma {:induction false} NeverOverTheCap(t: Tables, run: seq<Act>, key: QuotaKey, cap: nat)
    requires Capped(t, key, cap) && RunWithin(Start(t), run, key, cap)
    ensures Capped(Run(Start(t), run).t, key, cap)
  {
    if run != [] {
      NeverOverTheCap(t, run[..|run| - 1], key, cap);
      ActCapped(Run(Start(t), run[..|run| - 1]), run[|run| - 1], key, cap);
    }
  }
}
