/** What a rotated session hands on: its own last lines, and nothing of any other session. */
module CarryoverText {
  import opened Wrappers
  import opened Text
  import opened Filters
  import opened Sessions
  import opened SessionRuns

  // ---- no other session has a say ----

  function OfSession(id: nat): Message -> bool {
    (m: Message) => m.session == id
  }

  /** Both hold the same messages of the session, in the same order, among any others. */
  predicate AgreeOn(messages: seq<Message>, others: seq<Message>, id: nat) {
    Filter(messages, OfSession(id)) == Filter(others, OfSession(id))
  }

  lemma CarryoverIsOwn(messages: seq<Message>, others: seq<Message>, id: nat)
    requires AgreeOn(messages, others, id)
    ensures CarryoverOf(messages, id) == CarryoverOf(others, id)
  {
    FilterMerge(messages, OfSession(id), InContext(id), InContext(id));
    FilterMerge(others, OfSession(id), InContext(id), InContext(id));
  }

  /** The tables differ in messages only, and agree on those of the session. */
  lemma RowsIgnoreOthers(t: Log, others: seq<Message>, account: Id, key: string, day: Option<string>, id: nat)
    requires FindSession(t.sessions, account, key) == Some(id) && CarryoverOf(t.messages, id) == CarryoverOf(others, id)
    requires ActiveSession(t, account, key, day).Ok?
    ensures var (r, r') := (ActiveSession(t, account, key, day), ActiveSession(t.(messages := others), account, key, day));
            r'.Ok? && r'.value.0.sessions == r.value.0.sessions && r'.value.1 == r.value.1
  {
  }

  lemma NewRowIgnoresOthers(t: Log, others: seq<Message>, account: Id, key: string, day: Option<string>)
    requires FindSession(t.sessions, account, key).None?
    ensures var (r, r') := (ActiveSession(t, account, key, day), ActiveSession(t.(messages := others), account, key, day));
            r.Ok? && r'.Ok? && r'.value.0.sessions == r.value.0.sessions && r'.value.1 == r.value.1
  {
  }

  /** Adding or removing messages of other sessions changes neither the rotated row nor the new one: an
      opened session leaves the same rows whatever anybody else has written. */
  lemma OpenIgnoresOthers(t: Log, others: seq<Message>, account: Id, scope: string, day: Option<string>)
    requires LogOk(t) && IsScope(scope)
    requires forall id <- t.sessions :: t.sessions[id].account == account && t.sessions[id].key == scope ==> AgreeOn(t.messages, others, id)
    ensures var (r, r') := (ActiveSession(t, account, scope, day), ActiveSession(t.(messages := others), account, scope, day));
            r.Ok? && r'.Ok? && r'.value.0.sessions == r.value.0.sessions && r'.value.1 == r.value.1
  {
    OpenKeeps(t, account, scope, day);
    var found := FindSession(t.sessions, account, scope);
    if found.Some? {
      CarryoverIsOwn(t.messages, others, found.value);
      RowsIgnoreOthers(t, others, account, scope, day, found.value);
    } else {
      NewRowIgnoresOthers(t, others, account, scope, day);
    }
  }

  /** A rotation stores what its own session hands on with the new row, and with the closed one unless a
      text was stored there before; without a rotation no row's text changes. */
  lemma RotationHandsOn(t: Log, account: Id, scope: string, day: Option<string>, id: nat)
    requires LogOk(t) && IsScope(scope) && FindSession(t.sessions, account, scope) == Some(id)
    ensures ActiveSession(t, account, scope, day).Ok?
    ensures var (t', id') := ActiveSession(t, account, scope, day).value;
            var text := CarryoverOf(t.messages, id);
            && id in t'.sessions && id' in t'.sessions
            && (id' != id ==>
                 && t'.sessions[id'].carryover == text && !t'.sessions[id].active && t'.sessions[id].endedAt.Some?
                 && t'.sessions[id].carryover
                    == (if OrEmpty(t.sessions[id].carryover) != "" then t.sessions[id].carryover else text))
            && (id' == id ==> t'.sessions[id].carryover == t.sessions[id].carryover)
  {
    OpenKeeps(t, account, scope, day);
    assert KeyOk(id, t.sessions[id]);
    var reason := RotationReason(t.sessions[id], day);
    if reason.Some? {
      HandedOn(t.sessions[id], ArchiveKey(scope, id), reason.value, CarryoverOf(t.messages, id), t.now);
    }
  }

  lemma HandedOn(s: Session, key: string, reason: string, text: Option<string>, now: int)
    ensures var closed := Archived(s, key, reason, text, now);
            !closed.active && closed.endedAt.Some? && closed.carryover == if OrEmpty(s.carryover) != "" then s.carryover else text
  {
  }

  /** A run that posts nothing into the session. */
  predicate Silent(run: seq<Action>, id: nat) {
    forall a <- run :: a.Post? ==> a.m.session != id
  }

  lemma {:induction false} SilentRunAgrees(t: Log, run: seq<Action>, id: nat)
    requires LogOk(t) && PossibleRun(t, run) && Silent(run, id)
    ensures AgreeOn(t.messages, SessionRuns.Run(t, run).messages, id)
  {
    if run != [] {
      var (mid, a) := (SessionRuns.Run(t, run[..|run| - 1]), run[|run| - 1]);
      assert a in run && forall x <- run[..|run| - 1] :: x in run;
      SilentRunAgrees(t, run[..|run| - 1], id);
      RunKeeps(t, run[..|run| - 1]);
      ActionKeeps(mid, a);
      if a.Post? {
        FilterAppend(mid.messages, a.m, OfSession(id));
        assert Filter(mid.messages, OfSession(id)) + [] == Filter(mid.messages, OfSession(id));
      }
    }
  }

  /** Over any run in which nothing is posted into the session, whatever is posted elsewhere, what its
      rotation would hand on stays the same. */
  lemma CarryoverWaits(t: Log, run: seq<Action>, id: nat)
    requires LogOk(t) && PossibleRun(t, run) && Silent(run, id)
    ensures CarryoverOf(SessionRuns.Run(t, run).messages, id) == CarryoverOf(t.messages, id)
  {
    SilentRunAgrees(t, run, id);
    CarryoverIsOwn(t.messages, SessionRuns.Run(t, run).messages, id);
  }

  // ---- what the text says ----

  /** The message may be quoted: one of this session, with text, that is neither a failed or stock reply nor
      blocked. */
  predicate Quotable(m: Message, session: nat) {
    && m.session == session && m.content.Some? && m.content.value != ""
    && m.error != Some("moderation_blocked")
    && (m.role == Assistant ==> (m.error.None? || m.error.value == "") && m.content.value != NON_CONTEXT_REPLY)
  }

  /** The positions of the last eight quotable messages, or of all of them if they are fewer, in order. */
  ghost predicate LastEight(messages: seq<Message>, session: nat, at: seq<nat>) {
    && |at| <= 8
    && (forall j :: 0 <= j < |at| ==> at[j] < |messages| && Quotable(messages[at[j]], session))
    && (forall i, j :: 0 <= i < j < |at| ==> at[i] < at[j])
    && forall i: nat :: i < |messages| && Quotable(messages[i], session) ==> i in at || (|at| == 8 && i < at[0])
  }

  function Shortened(s: string, most: nat): string {
    if |s| <= most then s else s[..most] + "...[truncated]"
  }

  /** One quoted line. */
  function Quoted(m: Message): string {
    match m.role
    case User => "User: " + Shortened(CleanText(OrEmpty(m.content)), 400)
    case Assistant => "AI: " + Shortened(CleanText(OrEmpty(m.content)), 400)
    case System => "AI: " + Shortened(CleanText(OrEmpty(m.content)), 400)
  }

  /** The heading and the quoted lines, each on a line of its own. */
  function Quotes(messages: seq<Message>, at: seq<nat>): string
    requires forall j :: 0 <= j < |at| ==> at[j] < |messages|
  {
    if at == [] then "Recent carryover from previous session:"
    else Quotes(messages, at[..|at| - 1]) + "\n" + Quoted(messages[at[|at| - 1]])
  }

  lemma {:induction false} LinesAreQuotes(messages: seq<Message>, at: seq<nat>, rows: seq<Message>)
    requires |rows| == |at| && forall j :: 0 <= j < |at| ==> at[j] < |messages| && rows[j] == messages[at[j]]
    ensures Lines(rows) == Quotes(messages, at)
  {
    if at != [] {
      LinesAreQuotes(messages, at[..|at| - 1], rows[..|rows| - 1]);
      OneLine(Lines(rows[..|rows| - 1]), rows[|rows| - 1]);
    }
  }

  lemma OneLine(head: string, m: Message)
    ensures head + "\n" + (if m.role == User then "User" else "AI") + ": " + Clipped(CleanText(OrEmpty(m.content)), 400)
         == head + "\n" + Quoted(m)
  {
    var (who, text) := (if m.role == User then "User" else "AI", Clipped(CleanText(OrEmpty(m.content)), 400));
    assert head + "\n" + who + ": " + text == head + "\n" + (who + ": " + text);
    assert "User" + ": " == "User: " && "AI" + ": " == "AI: ";
  }

  lemma QuotableIs(m: Message, session: nat)
    ensures InContext(session)(m) <==> Quotable(m, session)
  {
  }

  lemma AllQuotable(messages: seq<Message>, session: nat) returns (all: seq<nat>)
    ensures |all| == |Filter(messages, InContext(session))|
    ensures forall j :: 0 <= j < |all| ==>
              all[j] < |messages| && Quotable(messages[all[j]], session) && Filter(messages, InContext(session))[j] == messages[all[j]]
    ensures forall i, j :: 0 <= i < j < |all| ==> all[i] < all[j]
    ensures forall i: nat :: i < |messages| && Quotable(messages[i], session) ==> i in all
  {
    all := FilterPositions(messages, InContext(session));
    forall i: nat | i < |messages| ensures InContext(session)(messages[i]) == Quotable(messages[i], session) {
      QuotableIs(messages[i], session);
    }
  }

  lemma LastOnes(messages: seq<Message>, session: nat, all: seq<nat>) returns (at: seq<nat>)
    requires forall j :: 0 <= j < |all| ==> all[j] < |messages| && Quotable(messages[all[j]], session)
    requires forall i, j :: 0 <= i < j < |all| ==> all[i] < all[j]
    requires forall i: nat :: i < |messages| && Quotable(messages[i], session) ==> i in all
    ensures at == LastOf(all, 8) && LastEight(messages, session, at)
  {
    at := LastOf(all, 8);
    forall i: nat | i < |messages| && Quotable(messages[i], session) ensures i in at || (|at| == 8 && i < at[0]) {
      var k :| 0 <= k < |all| && all[k] == i;
      if |all| > 8 && k >= |all| - 8 {
        assert at[k - (|all| - 8)] == i;
      }
    }
  }

  /** A rotation hands on nothing when nothing of its session can be quoted; otherwise the heading and the
      last eight quotable messages of that session, in order, users marked as such, cut to size. */
  lemma CarryoverSays(messages: seq<Message>, session: nat) returns (at: seq<nat>)
    ensures LastEight(messages, session, at)
    ensures CarryoverOf(messages, session)
         == if at == [] then None else Some(Shortened(Quotes(messages, at), 2400))
  {
    var all := AllQuotable(messages, session);
    at := LastOnes(messages, session, all);
    LinesAreQuotes(messages, at, LastOf(Filter(messages, InContext(session)), CARRYOVER_LIMIT));
  }
}
