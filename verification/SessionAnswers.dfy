/** What the session calls make of their rows, field by field. */
module SessionAnswers {
  import opened Wrappers
  import opened Text
  import Decimals
  import opened Sessions
  import opened SessionRuns

  /** The row must be replaced before it can serve the day: it is not active, or it keeps another day. */
  predicate MustRotate(s: Session, day: Option<string>) {
    || !s.active
    || (day.Some? && day.value != "" && s.day.Some? && CleanText(s.day.value) != "" && CleanText(s.day.value) != day.value)
  }

  lemma FoundIs(sessions: map<nat, Session>, account: Id, key: string, i: nat)
    requires OneRowPerKey(sessions) && i in sessions && sessions[i].account == account && sessions[i].key == key
    ensures FindSession(sessions, account, key) == Some(i)
  {
    assert Under(sessions[i], account, key);
  }

  lemma RotationIs(s: Session, day: Option<string>)
    ensures RotationReason(s, day)
         == if !MustRotate(s, day) then None else Some(if s.active then "daily_dreaming" else "replaced")
  {
  }

  /** Opening a session without a row under the key makes a new active one. */
  lemma OpenMakes(t: Log, account: Id, scope: string, day: Option<string>)
    requires forall i <- t.sessions :: !(t.sessions[i].account == account && t.sessions[i].key == scope)
    ensures ActiveSession(t, account, scope, day)
         == Ok((t.(sessions := t.sessions[t.nextId := Session(account, scope, true, None, None, day, None, None)], nextId := t.nextId + 1),
                t.nextId))
  {
  }

  /** A row that can serve is kept, and only given the day it lacks. */
  lemma OpenKeepsRow(t: Log, account: Id, scope: string, day: Option<string>, i: nat)
    requires LogOk(t) && i in t.sessions && t.sessions[i].account == account && t.sessions[i].key == scope
    requires !MustRotate(t.sessions[i], day)
    ensures ActiveSession(t, account, scope, day)
         == Ok((t.(sessions := t.sessions[i := t.sessions[i].(day := if t.sessions[i].day.Some? then t.sessions[i].day else day)]), i))
  {
    FoundIs(t.sessions, account, scope, i);
    RotationIs(t.sessions[i], day);
  }

  lemma ArchivedIs(s: Session, key: string, reason: string, text: Option<string>, now: int)
    ensures Archived(s, key, reason, text, now)
         == Session(s.account, key, false, if s.endedAt.Some? then s.endedAt else Some(now),
                    if s.closeReason.Some? then s.closeReason else Some(reason), s.day,
                    if OrEmpty(s.carryover) != "" then s.carryover else text, s.summary)
  {
  }

  lemma RotationDoes(t: Log, account: Id, scope: string, day: Option<string>, i: nat, reason: string)
    requires LogOk(t) && IsScope(scope) && FindSession(t.sessions, account, scope) == Some(i)
    requires RotationReason(t.sessions[i], day) == Some(reason)
    ensures var text := CarryoverOf(t.messages, i);
            ActiveSession(t, account, scope, day)
            == Ok((t.(sessions := t.sessions[i := Archived(t.sessions[i], ArchiveKey(scope, i), reason, text, t.now)][
                        t.nextId := Session(account, scope, true, None, None, day, text, None)],
                      nextId := t.nextId + 1),
                   t.nextId))
  {
    ArchiveFree(t, i, account, scope);
  }

  /** Any other row is closed under its archive key, keeping an earlier end, reason and text, and a new one
      is made; no other row changes, nor any message. */
  lemma OpenRotates(t: Log, account: Id, scope: string, day: Option<string>, i: nat)
    requires LogOk(t) && IsScope(scope) && i in t.sessions && t.sessions[i].account == account && t.sessions[i].key == scope
    requires MustRotate(t.sessions[i], day)
    ensures var (s, text) := (t.sessions[i], CarryoverOf(t.messages, i));
            var closed := Session(account, scope + ":" + Decimals.Decimal(i), false,
                                  if s.endedAt.Some? then s.endedAt else Some(t.now),
                                  if s.closeReason.Some? then s.closeReason else Some(if s.active then "daily_dreaming" else "replaced"),
                                  s.day, if OrEmpty(s.carryover) != "" then s.carryover else text, s.summary);
            ActiveSession(t, account, scope, day)
            == Ok((t.(sessions := t.sessions[i := closed][t.nextId := Session(account, scope, true, None, None, day, text, None)],
                      nextId := t.nextId + 1),
                   t.nextId))
  {
    var reason := if t.sessions[i].active then "daily_dreaming" else "replaced";
    FoundIs(t.sessions, account, scope, i);
    RotationIs(t.sessions[i], day);
    RotationDoes(t, account, scope, day, i, reason);
    ArchivedIs(t.sessions[i], ArchiveKey(scope, i), reason, CarryoverOf(t.messages, i), t.now);
  }

  /** The upsert makes a new active row, or fills in the day and text the row under the key lacks. */
  lemma EnsureAnswers(t: Log, account: Id, scope: string, day: Option<string>, carryover: Option<string>)
    requires LogOk(t) && IsScope(scope)
    ensures var (t', id) := Ensured(t, account, scope, day, carryover);
            && t'.messages == t.messages && t'.now == t.now
            && ((forall i <- t.sessions :: !(t.sessions[i].account == account && t.sessions[i].key == scope)) ==>
                 id == t.nextId && t'.nextId == t.nextId + 1
                 && t'.sessions == t.sessions[id := Session(account, scope, true, None, None, day, carryover, None)])
            && forall i <- t.sessions | t.sessions[i].account == account && t.sessions[i].key == scope ::
                 var s := t.sessions[i];
                 id == i && t'.nextId == t.nextId
                 && t'.sessions == t.sessions[i := s.(day := if s.day.Some? then s.day else day,
                                                      carryover := if s.carryover.Some? then s.carryover else carryover)]
  {
    forall i <- t.sessions | t.sessions[i].account == account && t.sessions[i].key == scope
      ensures FindSession(t.sessions, account, scope) == Some(i)
    {
      FoundIs(t.sessions, account, scope, i);
    }
  }

  /** Closing a row: it becomes inactive under the given key, or its own; an earlier end and reason stay,
      and newer texts replace older ones. It fails only when another row of the account holds the key. */
  lemma CloseAnswers(t: Log, id: nat, reason: string, key: Option<string>, summary: Option<string>, carryover: Option<string>)
    ensures var r := Closed(t, id, reason, key, summary, carryover);
            && (id !in t.sessions ==> r == Ok(t))
            && (id in t.sessions ==>
                 var s := t.sessions[id];
                 && (r == Err(DatabaseError) <==>
                      key.Some? && exists i <- t.sessions :: i != id && t.sessions[i].account == s.account && t.sessions[i].key == key.value)
                 && (r.Err? ==> r == Err(DatabaseError))
                 && (r.Ok? ==> r.value == t.(sessions := t.sessions[id :=
                      Session(s.account, if key.Some? then key.value else s.key, false,
                              if s.endedAt.Some? then s.endedAt else Some(t.now),
                              if s.closeReason.Some? then s.closeReason else Some(reason), s.day,
                              if carryover.Some? then carryover else s.carryover,
                              if summary.Some? then summary else s.summary)])))
  {
  }

  /** A closed row of the account, under `scope:..` when a scope is given. */
  predicate ClosedIn(s: Session, account: Id, scope: Option<string>) {
    s.account == account && !s.active && (scope == None || scope == Some("") || scope.value + ":" <= s.key)
  }

  /** The row a new session is seeded from is the one of these with the highest id. */
  lemma LatestIs(sessions: map<nat, Session>, account: Id, scope: Option<string>, id: nat)
    ensures LatestClosed(sessions, account, scope, id) <==>
            && id in sessions && ClosedIn(sessions[id], account, scope)
            && forall i <- sessions :: ClosedIn(sessions[i], account, scope) ==> i <= id
  {
    assert forall s: Session :: CarryoverRow(s, account, scope) == ClosedIn(s, account, scope);
  }
}
