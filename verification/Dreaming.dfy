/** Rotation with dreaming: an upsert, a close and a second upsert, each its own transaction, with
    anything else running in between. */
module Dreaming {
  import opened Wrappers
  import opened Text
  import opened Sessions
  import opened SessionRuns

  /** What the dreaming step makes of the closed session; either text may be missing. */
  datatype Dream = Dream(summary: Option<string>, carryover: Option<string>)

  /** The tables once the rotated session is closed under the archive key of the key it was read under. */
  ghost function ClosedAfter(t: Log, id: nat, key: string, reason: string, dream: Dream): Result<Log> {
    Closed(t, id, reason, Some(ArchiveKey(key, id)), dream.summary, dream.carryover)
  }

  /** `get_or_create_account_active_session_with_dreaming`, while `first` runs before its close and
      `second` between its close and its last upsert. */
  ghost function Dreamt(t: Log, account: Id, key: string, day: Option<string>, dream: Dream, first: seq<Action>, second: seq<Action>)
    : Result<(Log, nat)>
  {
    var (t1, id) := Ensured(t, account, key, day, None);
    match RotationReason(t1.sessions[id], day)
    case None => Ok((t1, id))
    case Some(reason) =>
      match ClosedAfter(Run(t1, first), id, t1.sessions[id].key, reason, dream)
      case Err(e) => Err(e)
      case Ok(t2) => Ok(Ensured(Run(t2, second), account, key, day, dream.carryover))
  }

  /** The call on its own, one transaction after the other. */
  method GetOrCreateWithDreaming(tables: SessionTables, account: Id, key: string, day: Option<string>, dream: Dream)
    returns (r: Result<nat>)
    requires OneRowPerKey(tables.sessions)
    modifies tables
    ensures match Dreamt(old(tables.Snapshot()), account, key, day, dream, [], [])
            case Ok(pair) => tables.Snapshot() == pair.0 && r == Ok(pair.1)
            case Err(e) => r == Err(e)
  {
    var id := tables.GetOrCreateSession(account, key, day, None);
    var session := tables.sessions[id];
    var reason := RotationReason(session, day);
    if reason.None? { return Ok(id); }
    var closed := tables.CloseSession(id, reason.value, Some(ArchiveKey(session.key, id)), dream.summary, dream.carryover);
    if closed.Err? { return Err(closed.error); }
    var next := tables.GetOrCreateSession(account, key, day, dream.carryover);
    return Ok(next);
  }

  // ---- the call is a run ----

  /** Whether the call rotates, and why. */
  ghost function Reason(t: Log, account: Id, key: string, day: Option<string>): Option<string> {
    var (t1, id) := Ensured(t, account, key, day, None);
    RotationReason(t1.sessions[id], day)
  }

  ghost function CloseIt(t: Log, account: Id, key: string, day: Option<string>, dream: Dream): Action {
    var (t1, id) := Ensured(t, account, key, day, None);
    var reason := Reason(t, account, key, day);
    Close(id, if reason.Some? then reason.value else "", true, dream.summary, dream.carryover)
  }

  /** The transactions of the call and those between them, as one run. */
  ghost function AsRun(t: Log, account: Id, key: string, day: Option<string>, dream: Dream, first: seq<Action>, second: seq<Action>)
    : seq<Action>
  {
    var start := [Ensure(account, key, day, None)];
    if Reason(t, account, key, day).None? then start
    else start + first + [CloseIt(t, account, key, day, dream)] + second + [Ensure(account, key, day, dream.carryover)]
  }

  lemma {:induction false} RunConcat(t: Log, a: seq<Action>, b: seq<Action>)
    ensures Run(t, a + b) == Run(Run(t, a), b)
    ensures PossibleRun(t, a + b) <==> PossibleRun(t, a) && PossibleRun(Run(t, a), b)
  {
    if b == [] {
      assert a + b == a;
    } else {
      assert (a + b)[..|a + b| - 1] == a + b[..|b| - 1];
      RunConcat(t, a, b[..|b| - 1]);
    }
  }

  lemma RunOne(t: Log, a: Action)
    ensures Run(t, [a]) == Next(t, a) && (PossibleRun(t, [a]) <==> Possible(t, a))
  {
    assert [a][..0] == [];
  }

  /** The first upsert leaves a row of the account under the key. */
  lemma FirstUpsert(t: Log, account: Id, scope: string, day: Option<string>)
    requires LogOk(t) && IsScope(scope)
    ensures var (t1, id) := Ensured(t, account, scope, day, None);
            LogOk(t1) && Moved(t, t1) && id in t1.sessions && Under(t1.sessions[id], account, scope)
  {
    EnsureKeeps(t, account, scope, day, None);
  }

  /** The close never fails, whatever ran since the session was read: it still finds the row in its
      scope, and no other row can hold its archive key. */
  lemma CloseStillWorks(t: Log, id: nat, account: Id, scope: string, first: seq<Action>, reason: string, dream: Dream)
    requires LogOk(t) && IsScope(scope) && PossibleRun(t, first) && id in t.sessions && Under(t.sessions[id], account, scope)
    ensures var t1 := Run(t, first);
            var r := ClosedAfter(t1, id, scope, reason, dream);
            && r.Ok? && LogOk(r.value) && Moved(t1, r.value)
            && After(t1, Close(id, reason, true, dream.summary, dream.carryover)) == r
  {
    RunKeeps(t, first);
    RunMoves(t, first);
    BaseOf(scope, id);
    assert Base(Run(t, first).sessions[id].key) == scope;
    assert ArchiveFor(Run(t, first), id, true) == Some(ArchiveKey(scope, id));
    CloseKeeps(Run(t, first), id, reason, true, dream.summary, dream.carryover);
  }

  /** What may run between the transactions: any possible actions. */
  ghost predicate PossibleBetween(t: Log, account: Id, scope: string, day: Option<string>, dream: Dream,
                                  first: seq<Action>, second: seq<Action>)
  {
    var (t1, id) := Ensured(t, account, scope, day, None);
    var reason := RotationReason(t1.sessions[id], day);
    reason.Some? ==>
      && PossibleRun(t1, first)
      && var r := ClosedAfter(Run(t1, first), id, t1.sessions[id].key, reason.value, dream); r.Ok? ==> PossibleRun(r.value, second)
  }

  /** The call succeeds and keeps every invariant, whatever runs between its transactions: it is a run,
      so what holds over runs holds over it, histories and carryover included. */
  lemma DreamIsRun(t: Log, account: Id, scope: string, day: Option<string>, dream: Dream, first: seq<Action>, second: seq<Action>)
    requires LogOk(t) && IsScope(scope) && PossibleBetween(t, account, scope, day, dream, first, second)
    ensures var r := Dreamt(t, account, scope, day, dream, first, second);
            var run := AsRun(t, account, scope, day, dream, first, second);
            r.Ok? && LogOk(r.value.0) && PossibleRun(t, run) && r.value.0 == Run(t, run)
  {
    var ensure := Ensure(account, scope, day, None);
    var (t1, id) := Ensured(t, account, scope, day, None);
    FirstUpsert(t, account, scope, day);
    RunOne(t, ensure);
    var reason := RotationReason(t1.sessions[id], day);
    if reason.Some? {
      CloseStillWorks(t1, id, account, scope, first, reason.value, dream);
      var close := CloseIt(t, account, scope, day, dream);
      var t2 := ClosedAfter(Run(t1, first), id, scope, reason.value, dream).value;
      var last := Ensure(account, scope, day, dream.carryover);
      RunKeeps(t2, second);
      EnsureKeeps(Run(t2, second), account, scope, day, dream.carryover);
      RunConcat(t, [ensure], first);
      RunConcat(t, [ensure] + first, [close]);
      RunOne(Run(t1, first), close);
      RunConcat(t, [ensure] + first + [close], second);
      RunConcat(t, [ensure] + first + [close] + second, [last]);
      RunOne(Run(t2, second), last);
    }
  }

  // ---- the session the call returns ----

  /** The row the last upsert finds under the key, if others have made one since the close. */
  ghost function FoundLast(t: Log, account: Id, scope: string, day: Option<string>, dream: Dream, first: seq<Action>, second: seq<Action>)
    : Option<Session>
  {
    var (t1, id) := Ensured(t, account, scope, day, None);
    var reason := RotationReason(t1.sessions[id], day);
    if reason.None? then None
    else
      var r := ClosedAfter(Run(t1, first), id, t1.sessions[id].key, reason.value, dream);
      if r.Err? then None
      else
        var t3 := Run(r.value, second);
        var found := FindSession(t3.sessions, account, scope);
        if found.Some? then Some(t3.sessions[found.value]) else None
  }

  /** A call that does not rotate returns the row it keeps: active, and on the requested day unless the
      stored day is another text, which then cleans to nothing or to the requested day. */
  lemma KeptReturns(t: Log, account: Id, scope: string, day: Option<string>, dream: Dream, first: seq<Action>, second: seq<Action>)
    requires LogOk(t) && IsScope(scope) && Reason(t, account, scope, day).None?
    ensures var r := Dreamt(t, account, scope, day, dream, first, second);
            r.Ok? && var (t', id) := r.value;
            && id in t'.sessions && Under(t'.sessions[id], account, scope) && t'.sessions[id].active
            && (day.Some? && day.value != "" ==>
                 && (t'.sessions[id].day == day <==>
                      !(KeepsDay(t, account, scope, day)
                        && t.sessions[FindSession(t.sessions, account, scope).value].day != day))
                 && (KeepsDay(t, account, scope, day) ==>
                      var kept := CleanText(t.sessions[FindSession(t.sessions, account, scope).value].day.value);
                      kept == "" || kept == day.value))
  {
    FirstUpsert(t, account, scope, day);
  }

  /** What an upsert makes of the row it finds, if any. */
  lemma UpsertReturns(t: Log, account: Id, scope: string, day: Option<string>, carryover: Option<string>)
    requires LogOk(t) && IsScope(scope)
    ensures var (t', id) := Ensured(t, account, scope, day, carryover);
            var found := FindSession(t.sessions, account, scope);
            && Under(t'.sessions[id], account, scope)
            && (t'.sessions[id].active <==> found.None? || t.sessions[found.value].active)
            && (day.Some? ==> (t'.sessions[id].day == day
                               <==> found.None? || t.sessions[found.value].day.None? || t.sessions[found.value].day == day))
  {
    EnsureKeeps(t, account, scope, day, carryover);
  }

  /** A call that rotates returns a row of the account under the key: a new active one on the requested
      day, unless others have put one there since the close, whose state and stored day it then keeps. */
  lemma RotatedReturns(t: Log, account: Id, scope: string, day: Option<string>, dream: Dream, first: seq<Action>, second: seq<Action>)
    requires LogOk(t) && IsScope(scope) && PossibleBetween(t, account, scope, day, dream, first, second)
    requires Reason(t, account, scope, day).Some?
    ensures var r := Dreamt(t, account, scope, day, dream, first, second);
            var found := FoundLast(t, account, scope, day, dream, first, second);
            r.Ok? && var (t', id) := r.value;
            && id in t'.sessions && Under(t'.sessions[id], account, scope)
            && (t'.sessions[id].active <==> found.None? || found.value.active)
            && (day.Some? ==> (t'.sessions[id].day == day <==> found.None? || found.value.day.None? || found.value.day == day))
  {
    FirstUpsert(t, account, scope, day);
    var (t1, id) := Ensured(t, account, scope, day, None);
    var reason := RotationReason(t1.sessions[id], day).value;
    CloseStillWorks(t1, id, account, scope, first, reason, dream);
    var t2 := ClosedAfter(Run(t1, first), id, scope, reason, dream).value;
    RunKeeps(t2, second);
    UpsertReturns(Run(t2, second), account, scope, day, dream.carryover);
  }

  /** With nothing in between, no row is found: a rotating call returns an active session on exactly the
      requested day. */
  lemma AloneFindsNone(t: Log, account: Id, scope: string, day: Option<string>, dream: Dream)
    requires LogOk(t) && IsScope(scope) && Reason(t, account, scope, day).Some?
    ensures PossibleBetween(t, account, scope, day, dream, [], [])
    ensures FoundLast(t, account, scope, day, dream, [], []) == None
  {
    FirstUpsert(t, account, scope, day);
    var (t1, id) := Ensured(t, account, scope, day, None);
    var reason := RotationReason(t1.sessions[id], day).value;
    CloseStillWorks(t1, id, account, scope, [], reason, dream);
    BaseOf(scope, id);
    var t2 := ClosedAfter(t1, id, scope, reason, dream).value;
    NoRowLeft(t1, id, t2.sessions[id], account, scope);
    assert FindSession(t2.sessions, account, scope) == None;
  }

  /** The session a call on its own returns: active, under the key, and on the requested day with the
      same exception as for an opened one. */
  lemma DreamReturns(t: Log, account: Id, scope: string, day: Option<string>, dream: Dream)
    requires LogOk(t) && IsScope(scope)
    ensures var r := Dreamt(t, account, scope, day, dream, [], []);
            r.Ok? && var (t', id) := r.value;
            && id in t'.sessions && Under(t'.sessions[id], account, scope) && t'.sessions[id].active
            && (day.Some? && day.value != "" ==>
                 && (t'.sessions[id].day == day <==>
                      !(KeepsDay(t, account, scope, day)
                        && t.sessions[FindSession(t.sessions, account, scope).value].day != day))
                 && (KeepsDay(t, account, scope, day) ==>
                      var kept := CleanText(t.sessions[FindSession(t.sessions, account, scope).value].day.value);
                      kept == "" || kept == day.value))
  {
    if Reason(t, account, scope, day).None? {
      KeptReturns(t, account, scope, day, dream, [], []);
    } else {
      AloneFindsNone(t, account, scope, day, dream);
      RotatedReturns(t, account, scope, day, dream, [], []);
      RotatesOnce(t, account, scope, day);
    }
  }

  lemma RotatesOnce(t: Log, account: Id, scope: string, day: Option<string>)
    requires Reason(t, account, scope, day).Some?
    ensures !KeepsDay(t, account, scope, day)
  {
  }

  // ---- when every close archives ----

  /** Every row under a scope's own key is active. */
  ghost predicate ActiveUnderScopes(t: Log) {
    forall i <- t.sessions :: IsScope(t.sessions[i].key) ==> t.sessions[i].active
  }

  ghost predicate Archiving(run: seq<Action>) {
    forall a <- run :: a.Close? ==> a.archive
  }

  lemma InsertStaysActive(t: Log, account: Id, scope: string, day: Option<string>, carryover: Option<string>)
    requires ActiveUnderScopes(t)
    ensures ActiveUnderScopes(Inserted(t, account, scope, day, carryover))
  {
  }

  lemma OpenStaysActive(t: Log, account: Id, scope: string, day: Option<string>)
    requires LogOk(t) && IsScope(scope) && ActiveUnderScopes(t)
    ensures ActiveSession(t, account, scope, day).Ok? && ActiveUnderScopes(ActiveSession(t, account, scope, day).value.0)
  {
    OpenKeeps(t, account, scope, day);
    match FindSession(t.sessions, account, scope)
    case None => InsertStaysActive(t, account, scope, day, None);
    case Some(id) =>
      var s := t.sessions[id];
      match RotationReason(s, day)
      case None =>
      case Some(reason) =>
        BaseOf(scope, id);
        ArchiveFree(t, id, account, scope);
        var carryover := CarryoverOf(t.messages, id);
        var archived := Archived(s, ArchiveKey(scope, id), reason, carryover, t.now);
        InsertStaysActive(t.(sessions := t.sessions[id := archived]), account, scope, day, carryover);
  }

  lemma CloseStaysActive(t: Log, id: nat, reason: string, text: Option<string>, carryover: Option<string>)
    requires LogOk(t) && ActiveUnderScopes(t)
    ensures ActiveUnderScopes(Next(t, Close(id, reason, true, text, carryover)))
  {
    if id in t.sessions {
      assert KeyOk(id, t.sessions[id]);
      var scope := Base(t.sessions[id].key);
      InScopeIsBase(t.sessions[id].key, scope);
      BaseOf(scope, id);
    }
  }

  lemma {:induction false} ArchivingKeepsActive(t: Log, run: seq<Action>)
    requires LogOk(t) && PossibleRun(t, run) && ActiveUnderScopes(t) && Archiving(run)
    ensures ActiveUnderScopes(Run(t, run))
  {
    if run != [] {
      var (mid, a) := (Run(t, run[..|run| - 1]), run[|run| - 1]);
      assert a in run && forall x <- run[..|run| - 1] :: x in run;
      RunKeeps(t, run[..|run| - 1]);
      ArchivingKeepsActive(t, run[..|run| - 1]);
      match a
      case Open(account, scope, day) => OpenStaysActive(mid, account, scope, day);
      case Ensure(account, scope, day, carryover) => EnsureKeeps(mid, account, scope, day, carryover);
      case Close(id, reason, archive, text, carryover) => CloseStaysActive(mid, id, reason, text, carryover);
      case _ =>
    }
  }

  /** While every close archives, as all callers do, the returned session is active, whatever runs
      between the transactions. */
  lemma ReturnsActive(t: Log, account: Id, scope: string, day: Option<string>, dream: Dream, first: seq<Action>, second: seq<Action>)
    requires LogOk(t) && IsScope(scope) && PossibleBetween(t, account, scope, day, dream, first, second)
    requires ActiveUnderScopes(t) && Archiving(first) && Archiving(second)
    ensures var r := Dreamt(t, account, scope, day, dream, first, second);
            r.Ok? && r.value.1 in r.value.0.sessions && r.value.0.sessions[r.value.1].active
  {
    DreamIsRun(t, account, scope, day, dream, first, second);
    ArchivingKeepsActive(t, AsRun(t, account, scope, day, dream, first, second));
    if Reason(t, account, scope, day).None? {
      KeptReturns(t, account, scope, day, dream, first, second);
    } else {
      RotatedReturns(t, account, scope, day, dream, first, second);
    }
  }
}
