/** Sessions under stable keys: how an active session is found, rotated and closed. */
module Sessions {
  import opened Wrappers
  import opened Text
  import opened Decimals
  import opened Filters

  datatype Role = User | Assistant | System

  datatype Session = Session(
    account: Id, key: string, active: bool, endedAt: Option<int>, closeReason: Option<string>,
    day: Option<string>, carryover: Option<string>, summary: Option<string>)

  datatype Message = Message(
    id: int, account: Id, session: nat, role: Role, content: Option<string>, error: Option<string>)

  /** The two tables; `messages` is in id order, and `nextId` is the next identity value of sessions. */
  datatype Log = Log(sessions: map<nat, Session>, messages: seq<Message>, nextId: nat, now: int)

  // ---- text ----

  const NON_CONTEXT_REPLY :=
    "\U{6211}\U{8fd9}\U{8fb9}\U{521a}\U{521a}\U{6709}\U{70b9}\U{5361}\U{4f4f}\U{4e86}\U{ff0c}\U{4f60}\U{53ef}\U{4ee5}\U{7a0d}\U{540e}\U{518d}\U{53d1}\U{6211}\U{4e00}\U{6b21}\U{3002}"
  const BLOCKED := "moderation_blocked"
  const CARRYOVER_LIMIT := 8

  function OrEmpty(s: Option<string>): string { if s.Some? then s.value else "" }

  function Coalesce<T>(a: Option<T>, b: Option<T>): Option<T> { if a.Some? then a else b }

  function NullIfEmpty(s: Option<string>): Option<string> { if s == Some("") then None else s }

  function Clipped(s: string, most: nat): string {
    if |s| > most then s[..most] + "...[truncated]" else s
  }

  // ---- carryover ----

  function InContext(session: nat): Message -> bool {
    (m: Message) =>
      && m.session == session && OrEmpty(m.content) != ""
      && !(m.role == Assistant && OrEmpty(m.error) != "")
      && !(m.role == Assistant && m.content == Some(NON_CONTEXT_REPLY))
      && m.error != Some(BLOCKED)
  }

  function LastOf<T>(s: seq<T>, most: nat): seq<T> {
    if |s| <= most then s else s[|s| - most..]
  }

  function Lines(messages: seq<Message>): string {
    if messages == [] then "Recent carryover from previous session:"
    else
      var m := messages[|messages| - 1];
      Lines(messages[..|messages| - 1]) + "\n" + (if m.role == User then "User" else "AI") + ": "
      + Clipped(CleanText(OrEmpty(m.content)), 400)
  }

  /** `_build_session_carryover_summary`. */
  function CarryoverOf(messages: seq<Message>, session: nat): Option<string> {
    var rows := LastOf(Filter(messages, InContext(session)), CARRYOVER_LIMIT);
    if rows == [] then None else Some(Clipped(Lines(rows), 2400))
  }

  // ---- one session row ----

  ghost predicate OneRowPerKey(sessions: map<nat, Session>) {
    forall i <- sessions, j <- sessions :: sessions[i].account == sessions[j].account && sessions[i].key == sessions[j].key ==> i == j
  }

  predicate Under(s: Session, account: Id, key: string) { s.account == account && s.key == key }

  /** The row under a key; UNIQUE(account_id, session_key) leaves at most one. */
  ghost function FindSession(sessions: map<nat, Session>, account: Id, key: string): (r: Option<nat>)
    ensures r.Some? ==> r.value in sessions && Under(sessions[r.value], account, key)
    ensures r.None? ==> forall i <- sessions :: !Under(sessions[i], account, key)
  {
    if exists i <- sessions :: Under(sessions[i], account, key)
    then var i :| i in sessions && Under(sessions[i], account, key); Some(i)
    else None
  }

  /** `_active_session_rotation_reason`, and `_close_reason_for`. */
  function RotationReason(s: Session, day: Option<string>): Option<string> {
    var kept := CleanText(OrEmpty(s.day));
    if !s.active then Some("replaced")
    else if OrEmpty(day) != "" && kept != "" && kept != day.value then Some("daily_dreaming")
    else None
  }

  function ArchiveKey(key: string, id: nat): string { key + ":" + Decimal(id) }

  function Inserted(t: Log, account: Id, key: string, day: Option<string>, carryover: Option<string>): Log {
    t.(sessions := t.sessions[t.nextId := Session(account, key, true, None, None, day, carryover, None)], nextId := t.nextId + 1)
  }

  /** Whether another row of the account already holds the key. */
  predicate Taken(sessions: map<nat, Session>, id: nat, account: Id, key: string) {
    exists i <- sessions :: i != id && Under(sessions[i], account, key)
  }

  function Archived(s: Session, key: string, reason: string, carryover: Option<string>, now: int): Session {
    s.(key := key, active := false, endedAt := Coalesce(s.endedAt, Some(now)), closeReason := Coalesce(s.closeReason, Some(reason)),
       carryover := Coalesce(NullIfEmpty(s.carryover), carryover))
  }

  // ---- specifications ----

  /** The sessions half of `get_or_create_account_active_session`: the tables after it, and the id of
      the session it returns. */
  ghost function ActiveSession(t: Log, account: Id, key: string, day: Option<string>): Result<(Log, nat)> {
    match FindSession(t.sessions, account, key)
    case None => Ok((Inserted(t, account, key, day, None), t.nextId))
    case Some(id) =>
      var s := t.sessions[id];
      match RotationReason(s, day)
      case None => Ok((t.(sessions := t.sessions[id := s.(day := Coalesce(s.day, day))]), id))
      case Some(reason) =>
        if Taken(t.sessions, id, account, ArchiveKey(key, id)) then Err(DatabaseError)
        else
          var carryover := CarryoverOf(t.messages, id);
          var closed := t.(sessions := t.sessions[id := Archived(s, ArchiveKey(key, id), reason, carryover, t.now)]);
          Ok((Inserted(closed, account, key, day, carryover), t.nextId))
  }

  /** The upsert of `get_or_create_session`. */
  ghost function Ensured(t: Log, account: Id, key: string, day: Option<string>, carryover: Option<string>): (r: (Log, nat))
    ensures r.1 in r.0.sessions
  {
    match FindSession(t.sessions, account, key)
    case None => (Inserted(t, account, key, day, carryover), t.nextId)
    case Some(id) =>
      var s := t.sessions[id];
      (t.(sessions := t.sessions[id := s.(day := Coalesce(s.day, day), carryover := Coalesce(s.carryover, carryover))]), id)
  }

  function ClosedRow(s: Session, reason: string, key: Option<string>, summary: Option<string>, carryover: Option<string>,
                     now: int): Session
  {
    s.(key := if key.Some? then key.value else s.key, active := false, endedAt := Coalesce(s.endedAt, Some(now)),
       closeReason := Coalesce(s.closeReason, Some(reason)), summary := Coalesce(summary, s.summary),
       carryover := Coalesce(carryover, s.carryover))
  }

  /** `close_session`. */
  function Closed(t: Log, id: nat, reason: string, key: Option<string>, summary: Option<string>, carryover: Option<string>)
    : Result<Log>
  {
    if id !in t.sessions then Ok(t)
    else if key.Some? && Taken(t.sessions, id, t.sessions[id].account, key.value) then Err(DatabaseError)
    else Ok(t.(sessions := t.sessions[id := ClosedRow(t.sessions[id], reason, key, summary, carryover, t.now)]))
  }

  /** The closed rows of an account, in one scope's archive when a scope is given. */
  predicate CarryoverRow(s: Session, account: Id, scope: Option<string>) {
    s.account == account && !s.active && (OrEmpty(scope) != "" ==> scope.value + ":" <= s.key)
  }

  /** The row a new session is seeded from: the closed one of highest id. */
  predicate LatestClosed(sessions: map<nat, Session>, account: Id, scope: Option<string>, id: nat) {
    && id in sessions && CarryoverRow(sessions[id], account, scope)
    && forall i <- sessions :: CarryoverRow(sessions[i], account, scope) ==> i <= id
  }

  // ---- the calls, on the tables in place ----

  class SessionTables {
    var sessions: map<nat, Session>
    var messages: seq<Message>
    var nextId: nat
    var now: int

    constructor (t: Log)
      ensures Snapshot() == t
    {
      sessions, messages, nextId, now := t.sessions, t.messages, t.nextId, t.now;
    }

    function Snapshot(): Log
      reads this
    {
      Log(sessions, messages, nextId, now)
    }

    method SelectSession(account: Id, key: string) returns (r: Option<nat>)
      requires OneRowPerKey(sessions)
      ensures r == FindSession(sessions, account, key)
    {
      if i :| i in sessions && Under(sessions[i], account, key) {
        return Some(i);
      }
      return None;
    }

    method GetOrCreateAccountActiveSession(account: Id, key: string, day: Option<string>) returns (r: Result<nat>)
      requires OneRowPerKey(sessions)
      modifies this`sessions, this`nextId
      ensures match ActiveSession(old(Snapshot()), account, key, day)
              case Ok(pair) => Snapshot() == pair.0 && r == Ok(pair.1)
              case Err(e) => Snapshot() == old(Snapshot()) && r == Err(e)
    {
      var id := SelectSession(account, key);
      var carryover := None;
      if id.Some? {
        var s := sessions[id.value];
        var reason := RotationReason(s, day);
        if reason.None? {
          sessions := sessions[id.value := s.(day := Coalesce(s.day, day))];
          return Ok(id.value);
        }
        carryover := CarryoverOf(messages, id.value);
        var archived := ArchiveKey(key, id.value);
        if exists i <- sessions :: i != id.value && Under(sessions[i], account, archived) { return Err(DatabaseError); }
        sessions := sessions[id.value := Archived(s, archived, reason.value, carryover, now)];
      }
      sessions := sessions[nextId := Session(account, key, true, None, None, day, carryover, None)];
      nextId := nextId + 1;
      return Ok(nextId - 1);
    }

    method GetOrCreateSession(account: Id, key: string, day: Option<string>, carryover: Option<string>) returns (id: nat)
      requires OneRowPerKey(sessions)
      modifies this`sessions, this`nextId
      ensures (Snapshot(), id) == Ensured(old(Snapshot()), account, key, day, carryover)
    {
      var found := SelectSession(account, key);
      if found.Some? {
        var s := sessions[found.value];
        sessions := sessions[found.value := s.(day := Coalesce(s.day, day), carryover := Coalesce(s.carryover, carryover))];
        return found.value;
      }
      sessions := sessions[nextId := Session(account, key, true, None, None, day, carryover, None)];
      nextId := nextId + 1;
      return nextId - 1;
    }

    method CloseSession(id: nat, reason: string, key: Option<string>, summary: Option<string>, carryover: Option<string>)
      returns (r: Result<()>)
      modifies this`sessions
      ensures match Closed(old(Snapshot()), id, reason, key, summary, carryover)
              case Ok(t) => Snapshot() == t && r == Ok(())
              case Err(e) => Snapshot() == old(Snapshot()) && r == Err(e)
    {
      if id !in sessions { return Ok(()); }
      var s := sessions[id];
      if key.Some? && exists i <- sessions :: i != id && Under(sessions[i], s.account, key.value) { return Err(DatabaseError); }
      sessions := sessions[id := ClosedRow(s, reason, key, summary, carryover, now)];
      return Ok(());
    }

    /** `get_latest_closed_carryover_for_account`: ORDER BY id DESC LIMIT 1. */
    method GetLatestClosedCarryover(account: Id, scope: Option<string>) returns (r: Option<string>)
      ensures forall id <- sessions :: LatestClosed(sessions, account, scope, id) ==> r == sessions[id].carryover
      ensures (forall id <- sessions :: !CarryoverRow(sessions[id], account, scope)) ==> r == None
    {
      var best: Option<nat> := None;
      var todo := sessions.Keys;
      while todo != {}
        invariant todo <= sessions.Keys
        invariant best.Some? ==> best.value in sessions && CarryoverRow(sessions[best.value], account, scope)
        invariant forall i <- sessions :: i !in todo && CarryoverRow(sessions[i], account, scope) ==> best.Some? && i <= best.value
        decreases todo
      {
        var i :| i in todo;
        if CarryoverRow(sessions[i], account, scope) && (best.None? || i > best.value) { best := Some(i); }
        todo := todo - {i};
      }
      return if best.Some? then sessions[best.value].carryover else None;
    }
  }
}
