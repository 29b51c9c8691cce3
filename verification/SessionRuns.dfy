/** What every run of session calls keeps: unique active keys, closed archives, an unchanged history. */
module SessionRuns {
  import opened Wrappers
  import opened Text
  import opened Decimals
  import opened Filters
  import opened Sessions

  const APP_SCOPE := "__app_active__"

  /** A conversation scope's active key; the shipped ones hold no colon. */
  predicate IsScope(key: string) { ':' !in key }

  /** The scope a key belongs to: what stands before its first colon. */
  function Base(key: string): string { key[..IndexOf(key, ':')] }

  /** `session_key = scope OR substr(session_key, 1, len) = scope + ":"` */
  predicate InScope(key: string, scope: string) {
    key == scope || scope + ":" <= key
  }

  lemma InScopeIsBase(key: string, scope: string)
    requires IsScope(scope)
    ensures InScope(key, scope) <==> Base(key) == scope
  {
    if scope + ":" <= key {
      var rest := key[|scope| + 1..];
      assert key == scope + ":" + rest;
      IndexOfFirst(scope, ':', rest);
    } else if key == scope {
      IndexOfFirst(scope, ':', "");
    }
  }

  lemma BaseOf(scope: string, id: nat)
    requires IsScope(scope)
    ensures Base(scope) == scope && Base(ArchiveKey(scope, id)) == scope && ArchiveKey(scope, id) != scope
    ensures !IsScope(ArchiveKey(scope, id))
  {
    IndexOfFirst(scope, ':', Decimal(id));
    IndexOfFirst(scope, ':', "");
    assert ArchiveKey(scope, id) == scope + ":" + Decimal(id);
    assert ArchiveKey(scope, id)[|scope|] == ':';
    assert ArchiveKey(scope, id)[..|scope|] == scope;
  }

  lemma ArchiveKeyInjective(a: string, i: nat, b: string, j: nat)
    requires IsScope(a) && IsScope(b) && ArchiveKey(a, i) == ArchiveKey(b, j)
    ensures a == b && i == j
  {
    SameSplit(a, b, Decimal(i), Decimal(j));
    DecimalInjective(i, j);
  }

  // ---- the invariant ----

  /** A row is under its scope's active key, or closed under its own archive key. */
  ghost predicate KeyOk(id: nat, s: Session) {
    IsScope(s.key) || (!s.active && s.key == ArchiveKey(Base(s.key), id) && IsScope(Base(s.key)))
  }

  ghost predicate KeysOk(sessions: map<nat, Session>, nextId: nat) {
    forall i {:trigger KeyOk(i, sessions[i])} :: i in sessions ==> i < nextId && KeyOk(i, sessions[i])
  }

  ghost predicate MessagesOk(t: Log) {
    && (forall m <- t.messages :: m.session < t.nextId)
    && forall i, j :: 0 <= i < j < |t.messages| ==> t.messages[i].id < t.messages[j].id
  }

  ghost predicate LogOk(t: Log) {
    OneRowPerKey(t.sessions) && KeysOk(t.sessions, t.nextId) && MessagesOk(t)
  }

  // ---- actions ----

  datatype Action =
    | Open(account: Id, scope: string, day: Option<string>)
    | Ensure(account: Id, scope: string, day: Option<string>, carryover: Option<string>)
    | Close(id: nat, reason: string, archive: bool, text: Option<string>, carryover: Option<string>)
    | Post(m: Message)
    | Tick(now: int)

  /** The key a closing caller archives under, from the active key it read when it listed the session. */
  function ArchiveFor(t: Log, id: nat, archive: bool): Option<string> {
    if archive && id in t.sessions then Some(ArchiveKey(Base(t.sessions[id].key), id)) else None
  }

  ghost function After(t: Log, a: Action): Result<Log> {
    match a
    case Open(account, scope, day) =>
      var r := ActiveSession(t, account, scope, day);
      if r.Ok? then Ok(r.value.0) else Err(r.error)
    case Ensure(account, scope, day, carryover) => Ok(Ensured(t, account, scope, day, carryover).0)
    case Close(id, reason, archive, text, carryover) => Closed(t, id, reason, ArchiveFor(t, id, archive), text, carryover)
    case Post(m) => Ok(t.(messages := t.messages + [m]))
    case Tick(now) => Ok(t.(now := now))
  }

  ghost predicate Possible(t: Log, a: Action) {
    match a
    case Open(_, scope, _) => IsScope(scope)
    case Ensure(_, scope, _, _) => IsScope(scope)
    case Post(m) => m.session in t.sessions && forall x <- t.messages :: x.id < m.id
    case _ => true
  }

  /** A failed call rolls back. */
  ghost function Next(t: Log, a: Action): Log {
    if After(t, a).Ok? then After(t, a).value else t
  }

  ghost function Run(t: Log, run: seq<Action>): Log {
    if run == [] then t else Next(Run(t, run[..|run| - 1]), run[|run| - 1])
  }

  ghost predicate PossibleRun(t: Log, run: seq<Action>) {
    run != [] ==> PossibleRun(t, run[..|run| - 1]) && Possible(Run(t, run[..|run| - 1]), run[|run| - 1])
  }

  // ---- what single updates keep ----

  /** What an update may do to the rows: it may add rows, and move a row within its scope. */
  ghost predicate RowsMoved(t: Log, t': Log) {
    && t.nextId <= t'.nextId
    && t.sessions.Keys <= t'.sessions.Keys
    && (forall i <- t'.sessions :: i in t.sessions || i >= t.nextId)
    && forall i <- t.sessions ::
         t'.sessions[i].account == t.sessions[i].account && Base(t'.sessions[i].key) == Base(t.sessions[i].key)
  }

  ghost predicate Moved(t: Log, t': Log) {
    RowsMoved(t, t') && t'.messages == t.messages
  }

  lemma MovedTwice(a: Log, b: Log, c: Log)
    requires Moved(a, b) && Moved(b, c)
    ensures Moved(a, c)
  {
  }

  lemma InsertKeeps(t: Log, account: Id, key: string, day: Option<string>, carryover: Option<string>)
    requires LogOk(t) && IsScope(key) && forall i <- t.sessions :: !Under(t.sessions[i], account, key)
    ensures LogOk(Inserted(t, account, key, day, carryover)) && Moved(t, Inserted(t, account, key, day, carryover))
  {
    var t' := Inserted(t, account, key, day, carryover);
    forall i | i in t'.sessions ensures i < t'.nextId && KeyOk(i, t'.sessions[i]) && (i in t.sessions ==> i != t.nextId) {
      assert i in t.sessions ==> KeyOk(i, t.sessions[i]);
    }
  }

  lemma UpdateKeeps(t: Log, id: nat, s: Session)
    requires LogOk(t) && id in t.sessions && KeyOk(id, s)
    requires s.account == t.sessions[id].account && Base(s.key) == Base(t.sessions[id].key)
    requires !Taken(t.sessions, id, s.account, s.key)
    ensures LogOk(t.(sessions := t.sessions[id := s])) && Moved(t, t.(sessions := t.sessions[id := s]))
  {
    var t' := t.(sessions := t.sessions[id := s]);
    forall i | i in t'.sessions ensures i < t'.nextId && KeyOk(i, t'.sessions[i]) {
      assert KeyOk(i, t.sessions[i]);
    }
    forall i | i in t.sessions && i != id ensures !Under(t.sessions[i], s.account, s.key) {
    }
    assert OneRowPerKey(t'.sessions);
  }

  /** No other row can hold a row's archive key. */
  lemma ArchiveFree(t: Log, id: nat, account: Id, scope: string)
    requires LogOk(t) && IsScope(scope)
    ensures !Taken(t.sessions, id, account, ArchiveKey(scope, id))
  {
    BaseOf(scope, id);
    forall i | i in t.sessions && i != id ensures !Under(t.sessions[i], account, ArchiveKey(scope, id)) {
      assert KeyOk(i, t.sessions[i]);
      if t.sessions[i].key == ArchiveKey(scope, id) {
        ArchiveKeyInjective(Base(t.sessions[i].key), i, scope, id);
      }
    }
  }

  lemma OwnKeyFree(t: Log, id: nat)
    requires LogOk(t) && id in t.sessions
    ensures !Taken(t.sessions, id, t.sessions[id].account, t.sessions[id].key)
  {
  }

  /** Rotation never fails, and keeps everything. */
  lemma OpenKeeps(t: Log, account: Id, scope: string, day: Option<string>)
    requires LogOk(t) && IsScope(scope)
    ensures ActiveSession(t, account, scope, day).Ok?
    ensures LogOk(ActiveSession(t, account, scope, day).value.0) && Moved(t, ActiveSession(t, account, scope, day).value.0)
  {
    match FindSession(t.sessions, account, scope)
    case None => InsertKeeps(t, account, scope, day, None);
    case Some(id) =>
      var s := t.sessions[id];
      assert KeyOk(id, s);
      match RotationReason(s, day)
      case None =>
        OwnKeyFree(t, id);
        UpdateKeeps(t, id, s.(day := Coalesce(s.day, day)));
      case Some(reason) =>
        BaseOf(scope, id);
        ArchiveFree(t, id, account, scope);
        var carryover := CarryoverOf(t.messages, id);
        var archived := Archived(s, ArchiveKey(scope, id), reason, carryover, t.now);
        UpdateKeeps(t, id, archived);
        var closed := t.(sessions := t.sessions[id := archived]);
        NoRowLeft(t, id, archived, account, scope);
        InsertKeeps(closed, account, scope, day, carryover);
        MovedTwice(t, closed, Inserted(closed, account, scope, day, carryover));
  }

  lemma NoRowLeft(t: Log, id: nat, s: Session, account: Id, scope: string)
    requires LogOk(t) && id in t.sessions && Under(t.sessions[id], account, scope) && s.key != scope
    ensures var rows := t.sessions[id := s]; forall i <- rows :: !Under(rows[i], account, scope)
  {
  }

  lemma EnsureKeeps(t: Log, account: Id, scope: string, day: Option<string>, carryover: Option<string>)
    requires LogOk(t) && IsScope(scope)
    ensures LogOk(Ensured(t, account, scope, day, carryover).0) && Moved(t, Ensured(t, account, scope, day, carryover).0)
    ensures var (t', id) := Ensured(t, account, scope, day, carryover); Under(t'.sessions[id], account, scope)
  {
    match FindSession(t.sessions, account, scope)
    case None => InsertKeeps(t, account, scope, day, carryover);
    case Some(id) =>
      assert KeyOk(id, t.sessions[id]);
      OwnKeyFree(t, id);
      UpdateKeeps(t, id, t.sessions[id].(day := Coalesce(t.sessions[id].day, day), carryover := Coalesce(t.sessions[id].carryover, carryover)));
  }

  lemma CloseKeeps(t: Log, id: nat, reason: string, archive: bool, text: Option<string>, carryover: Option<string>)
    requires LogOk(t)
    ensures var r := Closed(t, id, reason, ArchiveFor(t, id, archive), text, carryover); r.Ok? && LogOk(r.value) && Moved(t, r.value)
  {
    if id in t.sessions {
      var s := t.sessions[id];
      assert KeyOk(id, s);
      var scope := Base(s.key);
      assert IsScope(scope);
      BaseOf(scope, id);
      ArchiveFree(t, id, s.account, scope);
      OwnKeyFree(t, id);
      InScopeIsBase(s.key, scope);
      UpdateKeeps(t, id, ClosedRow(s, reason, ArchiveFor(t, id, archive), text, carryover, t.now));
    }
  }

  lemma PostKeeps(t: Log, m: Message)
    requires LogOk(t) && Possible(t, Post(m))
    ensures LogOk(t.(messages := t.messages + [m]))
  {
    assert KeyOk(m.session, t.sessions[m.session]);
    var messages := t.messages + [m];
    forall i, j | 0 <= i < j < |messages| ensures messages[i].id < messages[j].id {
      assert t.messages[i] in t.messages;
    }
  }

  /** Every call succeeds and keeps the invariant; none but a post touches a message, and none moves a
      session out of its account or scope. */
  lemma ActionKeeps(t: Log, a: Action)
    requires LogOk(t) && Possible(t, a)
    ensures After(t, a).Ok? && LogOk(After(t, a).value)
    ensures !a.Post? ==> Moved(t, After(t, a).value)
  {
    match a
    case Open(account, scope, day) => OpenKeeps(t, account, scope, day);
    case Ensure(account, scope, day, carryover) => EnsureKeeps(t, account, scope, day, carryover);
    case Close(id, reason, archive, text, carryover) => CloseKeeps(t, id, reason, archive, text, carryover);
    case Post(m) => PostKeeps(t, m);
    case Tick(_) =>
  }

  lemma {:induction false} RunKeeps(t: Log, run: seq<Action>)
    requires LogOk(t) && PossibleRun(t, run)
    ensures LogOk(Run(t, run))
  {
    if run != [] {
      RunKeeps(t, run[..|run| - 1]);
      ActionKeeps(Run(t, run[..|run| - 1]), run[|run| - 1]);
    }
  }

  /** No run removes a session, or moves one out of its account or scope. */
  lemma {:induction false} RunMoves(t: Log, run: seq<Action>)
    requires LogOk(t) && PossibleRun(t, run)
    ensures RowsMoved(t, Run(t, run))
  {
    if run != [] {
      RunKeeps(t, run[..|run| - 1]);
      RunMoves(t, run[..|run| - 1]);
      ActionKeeps(Run(t, run[..|run| - 1]), run[|run| - 1]);
    }
  }

  /** After any run each (account, scope) has at most one row under the scope's active key, and every
      row under an archive key `scope:n` is closed and is row n. */
  lemma KeysOverRuns(t: Log, run: seq<Action>, i: nat, j: nat, scope: string, n: nat)
    requires LogOk(t) && PossibleRun(t, run) && IsScope(scope)
    ensures var rows := Run(t, run).sessions;
            && (i in rows && j in rows && rows[i].account == rows[j].account && rows[i].key == scope == rows[j].key ==> i == j)
            && (i in rows && rows[i].key == ArchiveKey(scope, n) ==> !rows[i].active && i == n)
  {
    RunKeeps(t, run);
    var rows := Run(t, run).sessions;
    if i in rows && rows[i].key == ArchiveKey(scope, n) {
      assert KeyOk(i, rows[i]);
      BaseOf(scope, n);
      ArchiveKeyInjective(Base(rows[i].key), i, scope, n);
    }
  }

  // ---- the session a call returns ----

  /** Whether the session the call finds keeps its stored day. */
  ghost predicate KeepsDay(t: Log, account: Id, scope: string, day: Option<string>) {
    var found := FindSession(t.sessions, account, scope);
    found.Some? && RotationReason(t.sessions[found.value], day).None? && t.sessions[found.value].day.Some?
  }

  /** The returned session is active and under the requested key; and it carries the requested day
      unless an active session is kept whose stored day is another text: a blank one, or the same day
      with blanks around it. */
  lemma OpenReturns(t: Log, account: Id, scope: string, day: Option<string>)
    requires LogOk(t) && IsScope(scope)
    ensures ActiveSession(t, account, scope, day).Ok?
    ensures var (t', id) := ActiveSession(t, account, scope, day).value;
            && id in t'.sessions && Under(t'.sessions[id], account, scope) && t'.sessions[id].active
            && (day.Some? && day.value != "" ==>
                 (t'.sessions[id].day == day <==>
                   !(KeepsDay(t, account, scope, day)
                     && t.sessions[FindSession(t.sessions, account, scope).value].day != day)))
            && (KeepsDay(t, account, scope, day) && day.Some? && day.value != "" ==>
                 var kept := CleanText(t.sessions[FindSession(t.sessions, account, scope).value].day.value);
                 kept == "" || kept == day.value)
  {
    OpenKeeps(t, account, scope, day);
  }

  /** A kept session whose stored day has a blank in front is returned on that day, not the requested
      one. */
  lemma KeptDayDiffers()
    ensures var (start, now) := (Log(map[], [], 0, 0), Some("d"));
            var first := ActiveSession(start, "a", APP_SCOPE, Some(" d"));
            && first.Ok? && ActiveSession(first.value.0, "a", APP_SCOPE, now).Ok?
            && var (t, id) := ActiveSession(first.value.0, "a", APP_SCOPE, now).value;
               id in t.sessions && t.sessions[id].active && t.sessions[id].day == Some(" d") != now
  {
    var start := Log(map[], [], 0, 0);
    assert FindSession(start.sessions, "a", APP_SCOPE) == None;
    var t := Inserted(start, "a", APP_SCOPE, Some(" d"), None);
    assert Under(t.sessions[0], "a", APP_SCOPE);
    assert FindSession(t.sessions, "a", APP_SCOPE) == Some(0);
    assert " d"[1..] == "d" && CleanText(" d") == "d";
  }

  // ---- the history does not notice ----

  predicate Shown(sessions: map<nat, Session>, m: Message, account: Id, scope: string) {
    && m.account == account && m.session in sessions && sessions[m.session].account == account
    && InScope(sessions[m.session].key, scope)
    && (m.role == User || m.role == Assistant) && OrEmpty(m.content) != ""
  }

  function ShownIn(sessions: map<nat, Session>, account: Id, scope: string): Message -> bool {
    (m: Message) => Shown(sessions, m, account, scope)
  }

  /** The conversation of an account in a scope, oldest first. */
  function History(t: Log, account: Id, scope: string): seq<Message> {
    Filter(t.messages, ShownIn(t.sessions, account, scope))
  }

  lemma MovedHistory(t: Log, t': Log, account: Id, scope: string)
    requires LogOk(t) && LogOk(t') && Moved(t, t') && IsScope(scope)
    ensures History(t', account, scope) == History(t, account, scope)
  {
    forall m <- t.messages ensures Shown(t.sessions, m, account, scope) == Shown(t'.sessions, m, account, scope) {
      if m.session in t.sessions {
        InScopeIsBase(t.sessions[m.session].key, scope);
        InScopeIsBase(t'.sessions[m.session].key, scope);
      }
    }
    FilterSame(t.messages, ShownIn(t.sessions, account, scope), ShownIn(t'.sessions, account, scope));
  }

  /** Opening, rotating and closing sessions, in whatever scope, leave every account's history in every
      scope exactly as it was; a posted message only appends to it. */
  lemma ActionHistory(t: Log, a: Action, account: Id, scope: string)
    requires LogOk(t) && Possible(t, a) && IsScope(scope)
    ensures var h := History(t, account, scope);
            History(Next(t, a), account, scope)
            == if a.Post? && Shown(t.sessions, a.m, account, scope) then h + [a.m] else h
  {
    ActionKeeps(t, a);
    if a.Post? {
      FilterAppend(t.messages, a.m, ShownIn(t.sessions, account, scope));
      assert History(t, account, scope) + [] == History(t, account, scope);
    } else {
      MovedHistory(t, After(t, a).value, account, scope);
    }
  }

  /** The messages a run posted into one conversation, in order. */
  ghost function Posted(t: Log, run: seq<Action>, account: Id, scope: string): seq<Message> {
    if run == [] then []
    else
      var a := run[|run| - 1];
      Posted(t, run[..|run| - 1], account, scope)
      + if a.Post? && Shown(Run(t, run[..|run| - 1]).sessions, a.m, account, scope) then [a.m] else []
  }

  lemma HistoryGrows(t: Log, before: seq<Message>, a: Action, account: Id, scope: string, posted: seq<Message>)
    requires LogOk(t) && Possible(t, a) && IsScope(scope) && History(t, account, scope) == before + posted
    ensures History(Next(t, a), account, scope)
         == before + (posted + if a.Post? && Shown(t.sessions, a.m, account, scope) then [a.m] else [])
  {
    ActionHistory(t, a, account, scope);
    assert posted + [] == posted;
    assert (before + posted) + [] == before + posted;
  }

  /** Over any run the history is what it was, followed by exactly the messages posted into it. */
  lemma {:induction false} HistoryOverRuns(t: Log, run: seq<Action>, account: Id, scope: string)
    requires LogOk(t) && PossibleRun(t, run) && IsScope(scope)
    ensures History(Run(t, run), account, scope) == History(t, account, scope) + Posted(t, run, account, scope)
  {
    if run != [] {
      var pre := run[..|run| - 1];
      RunKeeps(t, pre);
      HistoryOverRuns(t, pre, account, scope);
      HistoryGrows(Run(t, pre), History(t, account, scope), run[|run| - 1], account, scope, Posted(t, pre, account, scope));
    }
  }

  // ---- carryover stays in its scope ----

  /** The account and scope an action works on. */
  predicate Touches(t: Log, a: Action, account: Id, scope: string) {
    match a
    case Open(x, y, _) => x == account && y == scope
    case Ensure(x, y, _, _) => x == account && y == scope
    case Close(id, _, _, _, _) => id in t.sessions && t.sessions[id].account == account && Base(t.sessions[id].key) == scope
    case _ => false
  }

  /** The rows of every other (account, scope) are left as they are. */
  ghost predicate LeavesOthers(t: Log, t': Log, account: Id, scope: string) {
    && t.sessions.Keys <= t'.sessions.Keys
    && (forall i <- t.sessions :: t'.sessions[i] != t.sessions[i] ==> t.sessions[i].account == account && Base(t.sessions[i].key) == scope)
    && (forall i <- t'.sessions :: i !in t.sessions ==> t'.sessions[i].account == account && Base(t'.sessions[i].key) == scope)
  }

  lemma InsertLeaves(t: Log, account: Id, scope: string, day: Option<string>, carryover: Option<string>)
    requires LogOk(t) && IsScope(scope)
    ensures LeavesOthers(t, Inserted(t, account, scope, day, carryover), account, scope)
  {
    BaseOf(scope, 0);
    assert forall i <- t.sessions :: KeyOk(i, t.sessions[i]) ==> i != t.nextId;
  }

  lemma UpdateLeaves(t: Log, id: nat, s: Session, account: Id, scope: string)
    requires id in t.sessions && Under(t.sessions[id], account, scope) && IsScope(scope)
    ensures LeavesOthers(t, t.(sessions := t.sessions[id := s]), account, scope)
  {
    BaseOf(scope, id);
  }

  lemma LeavesTwice(a: Log, b: Log, c: Log, account: Id, scope: string)
    requires Moved(a, b) && LeavesOthers(a, b, account, scope) && Moved(b, c) && LeavesOthers(b, c, account, scope)
    ensures LeavesOthers(a, c, account, scope)
  {
  }

  lemma OpenLeavesOthers(t: Log, account: Id, scope: string, day: Option<string>)
    requires LogOk(t) && IsScope(scope)
    ensures ActiveSession(t, account, scope, day).Ok? && LeavesOthers(t, ActiveSession(t, account, scope, day).value.0, account, scope)
  {
    OpenKeeps(t, account, scope, day);
    match FindSession(t.sessions, account, scope)
    case None => InsertLeaves(t, account, scope, day, None);
    case Some(id) =>
      var s := t.sessions[id];
      match RotationReason(s, day)
      case None => UpdateLeaves(t, id, s.(day := Coalesce(s.day, day)), account, scope);
      case Some(reason) => RotationLeaves(t, id, account, scope, day, reason);
  }

  lemma RotationLeaves(t: Log, id: nat, account: Id, scope: string, day: Option<string>, reason: string)
    requires LogOk(t) && IsScope(scope) && id in t.sessions && Under(t.sessions[id], account, scope)
    ensures var carryover := CarryoverOf(t.messages, id);
            var closed := t.(sessions := t.sessions[id := Archived(t.sessions[id], ArchiveKey(scope, id), reason, carryover, t.now)]);
            LeavesOthers(t, Inserted(closed, account, scope, day, carryover), account, scope)
  {
    var s := t.sessions[id];
    assert KeyOk(id, s);
    BaseOf(scope, id);
    ArchiveFree(t, id, account, scope);
    var carryover := CarryoverOf(t.messages, id);
    var archived := Archived(s, ArchiveKey(scope, id), reason, carryover, t.now);
    UpdateKeeps(t, id, archived);
    UpdateLeaves(t, id, archived, account, scope);
    var closed := t.(sessions := t.sessions[id := archived]);
    NoRowLeft(t, id, archived, account, scope);
    InsertKeeps(closed, account, scope, day, carryover);
    InsertLeaves(closed, account, scope, day, carryover);
    LeavesTwice(t, closed, Inserted(closed, account, scope, day, carryover), account, scope);
  }

  lemma EnsureLeavesOthers(t: Log, account: Id, scope: string, day: Option<string>, carryover: Option<string>)
    requires LogOk(t) && IsScope(scope)
    ensures LeavesOthers(t, Ensured(t, account, scope, day, carryover).0, account, scope)
  {
    var found := FindSession(t.sessions, account, scope);
    if found.Some? {
      UpdateLeaves(t, found.value, Ensured(t, account, scope, day, carryover).0.sessions[found.value], account, scope);
    } else {
      InsertLeaves(t, account, scope, day, carryover);
    }
  }

  lemma ActionLeavesOthers(t: Log, a: Action)
    requires LogOk(t) && Possible(t, a) && After(t, a).Ok?
    ensures a.Open? || a.Ensure? ==> LeavesOthers(t, After(t, a).value, a.account, a.scope)
    ensures a.Close? && a.id in t.sessions ==>
              LeavesOthers(t, After(t, a).value, t.sessions[a.id].account, Base(t.sessions[a.id].key))
    ensures a.Post? || a.Tick? || (a.Close? && a.id !in t.sessions) ==> After(t, a).value.sessions == t.sessions
  {
    match a
    case Open(account, scope, day) => OpenLeavesOthers(t, account, scope, day);
    case Ensure(account, scope, day, carryover) => EnsureLeavesOthers(t, account, scope, day, carryover);
    case _ =>
  }

  lemma CarryoverIsBase(s: Session, account: Id, scope: string)
    requires IsScope(scope) && scope != "" && CarryoverRow(s, account, Some(scope))
    ensures s.account == account && Base(s.key) == scope
  {
    InScopeIsBase(s.key, scope);
  }

  lemma SameCarryoverRows(t: Log, t': Log, account: Id, scope: string, x: Id, y: string)
    requires LeavesOthers(t, t', x, y) && IsScope(scope) && scope != "" && !(x == account && y == scope) && Moved(t, t')
    ensures forall i :: (i in t'.sessions && CarryoverRow(t'.sessions[i], account, Some(scope)))
                   <==> (i in t.sessions && CarryoverRow(t.sessions[i], account, Some(scope)))
    ensures forall i <- t.sessions :: CarryoverRow(t.sessions[i], account, Some(scope)) ==> t'.sessions[i] == t.sessions[i]
  {
    forall i | i in t'.sessions && CarryoverRow(t'.sessions[i], account, Some(scope))
      ensures i in t.sessions && t'.sessions[i] == t.sessions[i]
    {
      CarryoverIsBase(t'.sessions[i], account, scope);
    }
    forall i | i in t.sessions && CarryoverRow(t.sessions[i], account, Some(scope)) ensures t'.sessions[i] == t.sessions[i] {
      CarryoverIsBase(t.sessions[i], account, scope);
    }
  }

  /** Carryover never crosses scopes: no action on another account or scope changes which closed row a
      new session of this one would be seeded from, nor that row's text. */
  lemma CarryoverStays(t: Log, a: Action, account: Id, scope: string, id: nat)
    requires LogOk(t) && Possible(t, a) && IsScope(scope) && scope != "" && !Touches(t, a, account, scope)
    ensures LatestClosed(t.sessions, account, Some(scope), id) <==> LatestClosed(Next(t, a).sessions, account, Some(scope), id)
    ensures LatestClosed(t.sessions, account, Some(scope), id) ==> Next(t, a).sessions[id] == t.sessions[id]
  {
    ActionKeeps(t, a);
    ActionLeavesOthers(t, a);
    var t' := After(t, a).value;
    match a
    case Open(x, y, _) => SameCarryoverRows(t, t', account, scope, x, y);
    case Ensure(x, y, _, _) => SameCarryoverRows(t, t', account, scope, x, y);
    case Close(i, _, _, _, _) =>
      if i in t.sessions {
        SameCarryoverRows(t, t', account, scope, t.sessions[i].account, Base(t.sessions[i].key));
      }
    case _ =>
  }

  /** No action of the run works on the account and scope. */
  ghost predicate Untouched(t: Log, run: seq<Action>, account: Id, scope: string) {
    run != [] ==>
      Untouched(t, run[..|run| - 1], account, scope) && !Touches(Run(t, run[..|run| - 1]), run[|run| - 1], account, scope)
  }

  /** So no run elsewhere does, however long: a session opened after it is seeded as before it. */
  lemma {:induction false} CarryoverOverRuns(t: Log, run: seq<Action>, account: Id, scope: string, id: nat)
    requires LogOk(t) && PossibleRun(t, run) && IsScope(scope) && scope != "" && Untouched(t, run, account, scope)
    ensures LatestClosed(t.sessions, account, Some(scope), id) <==> LatestClosed(Run(t, run).sessions, account, Some(scope), id)
    ensures LatestClosed(t.sessions, account, Some(scope), id) ==> Run(t, run).sessions[id] == t.sessions[id]
  {
    if run != [] {
      RunKeeps(t, run[..|run| - 1]);
      CarryoverOverRuns(t, run[..|run| - 1], account, scope, id);
      CarryoverStays(Run(t, run[..|run| - 1]), run[|run| - 1], account, scope, id);
    }
  }
}
