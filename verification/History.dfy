/** Reading the conversation history page by page, and the batched conversation summary. */
module History {
  import opened Wrappers
  import opened Filters
  import opened Sessions
  import opened SessionRuns

  function Clamped(limit: int): nat {
    if limit < 1 then 1 else if limit > 100 then 100 else limit
  }

  function Before(id: Option<int>): Message -> bool {
    (m: Message) => id.None? || m.id < id.value
  }

  /** `list_app_conversation_messages_before`: the last rows of the history before an id, oldest first. */
  function Page(t: Log, account: Id, before: Option<int>, limit: int): seq<Message> {
    LastOf(Filter(History(t, account, APP_SCOPE), Before(before)), Clamped(limit))
  }

  // ---- what a page lists ----

  /** The message belongs to the App conversation of the account: one with text, by the user or the
      assistant, in a session of the same account under the active App key or an archived one. */
  predicate Listed(t: Log, m: Message, account: Id) {
    && m.account == account && (m.role == User || m.role == Assistant) && m.content.Some? && m.content.value != ""
    && m.session in t.sessions && t.sessions[m.session].account == account
    && (t.sessions[m.session].key == "__app_active__" || "__app_active__:" <= t.sessions[m.session].key)
  }

  predicate Earlier(m: Message, before: Option<int>) {
    before.Some? ==> m.id < before.value
  }

  lemma ShownIsListed(t: Log, m: Message, account: Id)
    ensures Shown(t.sessions, m, account, APP_SCOPE) <==> Listed(t, m, account)
  {
    assert APP_SCOPE + ":" == "__app_active__:";
  }

  lemma EarlierHistory(t: Log, account: Id, before: Option<int>, m: Message)
    ensures m in Filter(History(t, account, APP_SCOPE), Before(before)) <==>
            m in t.messages && Listed(t, m, account) && Earlier(m, before)
  {
    ShownIsListed(t, m, account);
  }

  /** A page holds only messages of the conversation before the given id, oldest first, at most as many as
      the limit cut to 1..100; and a message it leaves out is older than all of it, and left out only
      because the page is full. */
  lemma PageLists(t: Log, account: Id, before: Option<int>, limit: int)
    requires LogOk(t)
    ensures var (page, most) := (Page(t, account, before, limit), if limit < 1 then 1 else if limit > 100 then 100 else limit);
            && |page| <= most && Ascending(page)
            && (forall m <- page :: m in t.messages && Listed(t, m, account) && Earlier(m, before))
            && forall m <- t.messages :: Listed(t, m, account) && Earlier(m, before) && m !in page ==>
                 |page| == most && m.id < page[0].id
  {
    var (page, all) := (Page(t, account, before, limit), Filter(History(t, account, APP_SCOPE), Before(before)));
    FilterAscending(t.messages, ShownIn(t.sessions, account, APP_SCOPE));
    FilterAscending(History(t, account, APP_SCOPE), Before(before));
    forall m | m in page ensures m in t.messages && Listed(t, m, account) && Earlier(m, before) {
      EarlierHistory(t, account, before, m);
    }
    forall m | m in t.messages && Listed(t, m, account) && Earlier(m, before) && m !in page
      ensures |page| == Clamped(limit) && m.id < page[0].id
    {
      EarlierHistory(t, account, before, m);
      LeftOut(all, Clamped(limit), m);
    }
  }

  lemma LeftOut(all: seq<Message>, most: nat, m: Message)
    requires Ascending(all) && m in all && m !in LastOf(all, most) && most > 0
    ensures |LastOf(all, most)| == most && m.id < LastOf(all, most)[0].id
  {
    var i :| 0 <= i < |all| && all[i] == m;
    assert forall j :: 0 <= j < |LastOf(all, most)| ==> LastOf(all, most)[j] == all[|all| - |LastOf(all, most)| + j];
    assert forall j :: |all| - |LastOf(all, most)| <= j < |all| ==> all[j] in LastOf(all, most);
  }

  // ---- following before_id ----

  ghost predicate Ascending(s: seq<Message>) {
    forall i, j :: 0 <= i < j < |s| ==> s[i].id < s[j].id
  }

  lemma {:induction false} FilterAscending(s: seq<Message>, keep: Message -> bool)
    requires Ascending(s)
    ensures Ascending(Filter(s, keep))
  {
    if s != [] {
      var pre := s[..|s| - 1];
      FilterAscending(pre, keep);
      var kept := Filter(pre, keep);
      assert kept + [] == kept;
      forall m <- kept ensures m.id < s[|s| - 1].id {
        var i :| 0 <= i < |pre| && pre[i] == m;
        assert s[i] == m;
      }
    }
  }

  /** In an ascending history, what lies before its k-th message is its first k messages. */
  lemma {:induction false} BeforeIsPrefix(s: seq<Message>, k: nat)
    requires Ascending(s) && k < |s|
    ensures Filter(s, Before(Some(s[k].id))) == s[..k]
    decreases |s|
  {
    var pre := s[..|s| - 1];
    if k == |s| - 1 {
      FilterAll(pre, Before(Some(s[k].id)));
      assert Filter(pre, Before(Some(s[k].id))) + [] == pre;
    } else {
      BeforeIsPrefix(pre, k);
      assert Filter(pre, Before(Some(s[k].id))) + [] == s[..k];
    }
  }

  /** A non-empty page is the end of what it is taken from, so the rest is shorter. */
  lemma PageSplits(s: seq<Message>, limit: int)
    requires s != []
    ensures var page := LastOf(s, Clamped(limit)); var first := |s| - |page|;
            0 <= first < |s| && page == s[first..] && page[0] == s[first] && s[..first] + page == s
  {
  }

  /** What lies before the k-th message, for every k. */
  ghost predicate PrefixAt(h: seq<Message>, k: nat)
    requires k < |h|
  {
    Filter(h, Before(Some(h[k].id))) == h[..k]
  }

  ghost predicate PrefixesOk(h: seq<Message>) {
    forall k: nat {:trigger PrefixAt(h, k)} :: k < |h| ==> PrefixAt(h, k)
  }

  /** After a page taken from the end of a prefix, the next request ranges over what lies before it. */
  lemma NextRequest(h: seq<Message>, rest: seq<Message>, limit: int) returns (older: seq<Message>)
    requires PrefixesOk(h) && rest <= h && rest != []
    ensures var page := LastOf(rest, Clamped(limit));
            older <= h && |older| < |rest| && page != [] && older + page == rest && Filter(h, Before(Some(page[0].id))) == older
  {
    PageSplits(rest, limit);
    var first := |rest| - |LastOf(rest, Clamped(limit))|;
    older := h[..first];
    assert PrefixAt(h, first);
    assert rest[..first] == older && rest[first] == h[first];
  }

  // ---- a reader among other calls ----

  /** One request of a reader, with the page size it asks for, and what runs before its next one. */
  datatype Request = Request(limit: int, meanwhile: seq<Action>)

  /** What a reader gathers who asks for one more page, before the oldest message seen so far, until a
      page comes back empty, while the tables go on changing between the requests. */
  ghost function Gathered(t: Log, account: Id, before: Option<int>, requests: seq<Request>): seq<Message>
    decreases |requests|
  {
    if requests == [] then []
    else
      var page := Page(t, account, before, requests[0].limit);
      if page == [] then []
      else Gathered(Run(t, requests[0].meanwhile), account, Some(page[0].id), requests[1..]) + page
  }

  ghost predicate PossibleReading(t: Log, requests: seq<Request>)
    decreases |requests|
  {
    requests != [] ==>
      PossibleRun(t, requests[0].meanwhile) && PossibleReading(Run(t, requests[0].meanwhile), requests[1..])
  }

  lemma HistoryPrefixes(t: Log, account: Id)
    requires LogOk(t)
    ensures PrefixesOk(History(t, account, APP_SCOPE)) && Ascending(History(t, account, APP_SCOPE))
  {
    var h := History(t, account, APP_SCOPE);
    FilterAscending(t.messages, ShownIn(t.sessions, account, APP_SCOPE));
    forall k: nat | k < |h| ensures PrefixAt(h, k) {
      BeforeIsPrefix(h, k);
    }
  }

  /** What lies before a message of the history stays the same in any run, posts included. */
  lemma BeforeSurvivesRun(t: Log, run: seq<Action>, account: Id, k: nat)
    requires LogOk(t) && PossibleRun(t, run) && k < |History(t, account, APP_SCOPE)|
    ensures var (h, h') := (History(t, account, APP_SCOPE), History(Run(t, run), account, APP_SCOPE));
            h <= h' && Filter(h', Before(Some(h[k].id))) == Filter(h, Before(Some(h[k].id))) == h[..k]
  {
    RunKeeps(t, run);
    HistoryOverRuns(t, run, account, APP_SCOPE);
    HistoryPrefixes(t, account);
    HistoryPrefixes(Run(t, run), account);
    var (h, h') := (History(t, account, APP_SCOPE), History(Run(t, run), account, APP_SCOPE));
    assert PrefixAt(h, k) && PrefixAt(h', k) && h'[k] == h[k];
    assert h'[..k] == h[..k];
  }

  /** So a page before any message already seen does not notice what has run since: posts, rotations,
      closes, in whatever scope. */
  lemma PageSurvivesRun(t: Log, run: seq<Action>, account: Id, k: nat, limit: int)
    requires LogOk(t) && PossibleRun(t, run) && k < |History(t, account, APP_SCOPE)|
    ensures var before := Some(History(t, account, APP_SCOPE)[k].id);
            Page(Run(t, run), account, before, limit) == Page(t, account, before, limit)
  {
    BeforeSurvivesRun(t, run, account, k);
  }

  lemma {:induction false} GatheredBefore(t: Log, account: Id, rest: seq<Message>, before: Option<int>, requests: seq<Request>)
    requires LogOk(t) && PossibleReading(t, requests) && |requests| >= |rest|
    requires rest <= History(t, account, APP_SCOPE) && Filter(History(t, account, APP_SCOPE), Before(before)) == rest
    ensures Gathered(t, account, before, requests) == rest
    decreases |rest|
  {
    if rest != [] {
      var (h, run) := (History(t, account, APP_SCOPE), requests[0].meanwhile);
      HistoryPrefixes(t, account);
      var older := NextRequest(h, rest, requests[0].limit);
      var page := Page(t, account, before, requests[0].limit);
      assert page[0] == rest[|older|] == h[|older|];
      BeforeSurvivesRun(t, run, account, |older|);
      RunKeeps(t, run);
      GatheredBefore(Run(t, run), account, older, Some(page[0].id), requests[1..]);
    }
  }

  /** Page by page, at any page sizes and among any other calls, the reader gathers exactly the history as
      it was at the first request, once and in order; and stops by itself, since more requests than there
      are messages change nothing. */
  lemma PagesAreTheHistory(t: Log, account: Id, requests: seq<Request>)
    requires LogOk(t) && PossibleReading(t, requests) && |requests| >= |History(t, account, APP_SCOPE)|
    ensures Gathered(t, account, None, requests) == History(t, account, APP_SCOPE)
  {
    FilterAll(History(t, account, APP_SCOPE), Before(None));
    GatheredBefore(t, account, History(t, account, APP_SCOPE), None, requests);
  }

  /** Paging does not notice rotation: between two requests any sessions may be opened, rotated or
      closed, and the next page is the same. */
  lemma PageSurvivesRotation(t: Log, a: Action, account: Id, before: Option<int>, limit: int)
    requires LogOk(t) && Possible(t, a) && !a.Post?
    ensures Page(Next(t, a), account, before, limit) == Page(t, account, before, limit)
  {
    ActionHistory(t, a, account, APP_SCOPE);
  }

  // ---- the batched summary ----

  datatype Summary = Summary(last: Message, unread: nat)

  function Cursor(c: Option<int>): int { if c.Some? then c.value else 0 }

  predicate Unread(m: Message, cursor: Option<int>) { m.role == Assistant && m.id > Cursor(cursor) }

  function UnreadIn(cursor: Option<int>): Message -> bool {
    (m: Message) => Unread(m, cursor)
  }

  /** What the one-conversation queries say: the newest message, and how many replies lie past the cursor. */
  function SummaryOf(h: seq<Message>, cursor: Option<int>): Option<Summary> {
    if h == [] then None else Some(Summary(h[|h| - 1], |Filter(h, UnreadIn(cursor))|))
  }

  /** The rows the SQL of the batch ranges over: those of any given account in the App scope. */
  predicate InBatch(t: Log, m: Message, cursors: map<Id, Option<int>>) {
    m.account in cursors && Shown(t.sessions, m, m.account, APP_SCOPE)
  }

  /** The messages of one account among the first k rows that the summary takes into account. */
  ghost function Prefix(t: Log, account: Id, k: nat): seq<Message>
    requires k <= |t.messages|
  {
    Filter(t.messages[..k], ShownIn(t.sessions, account, APP_SCOPE))
  }

  ghost predicate Agrees(t: Log, cursors: map<Id, Option<int>>, k: nat, latest: map<Id, Message>, unread: map<Id, nat>, account: Id)
    requires k <= |t.messages|
  {
    var h := Prefix(t, account, k);
    && (account in latest <==> account in cursors && h != [])
    && (account in latest ==> latest[account] == h[|h| - 1])
    && (account in cursors ==> (if account in unread then unread[account] else 0) == |Filter(h, UnreadIn(cursors[account]))|)
    && (account in unread ==> account in latest)
  }

  lemma PrefixStep(t: Log, account: Id, k: nat)
    requires k < |t.messages|
    ensures Prefix(t, account, k + 1)
         == Prefix(t, account, k) + if Shown(t.sessions, t.messages[k], account, APP_SCOPE) then [t.messages[k]] else []
  {
    assert t.messages[..k + 1] == t.messages[..k] + [t.messages[k]];
    FilterAppend(t.messages[..k], t.messages[k], ShownIn(t.sessions, account, APP_SCOPE));
  }

  lemma AgreesStep(t: Log, cursors: map<Id, Option<int>>, k: nat, latest: map<Id, Message>, unread: map<Id, nat>,
                   latest': map<Id, Message>, unread': map<Id, nat>, account: Id)
    requires k < |t.messages| && Agrees(t, cursors, k, latest, unread, account)
    requires var m := t.messages[k];
             if InBatch(t, m, cursors) then
               && latest' == latest[m.account := m]
               && unread' == if Unread(m, cursors[m.account])
                             then unread[m.account := (if m.account in unread then unread[m.account] else 0) + 1] else unread
             else latest' == latest && unread' == unread
    ensures Agrees(t, cursors, k + 1, latest', unread', account)
  {
    var (m, h) := (t.messages[k], Prefix(t, account, k));
    PrefixStep(t, account, k);
    assert h + [] == h;
    if account in cursors {
      FilterAppend(h, m, UnreadIn(cursors[account]));
    }
  }

  /** The two aggregate queries of `summarize_app_conversations`, over all listed accounts at once. */
  method Aggregate(t: Log, cursors: map<Id, Option<int>>) returns (latest: map<Id, Message>, unread: map<Id, nat>)
    ensures forall account :: Agrees(t, cursors, |t.messages|, latest, unread, account)
  {
    latest, unread := map[], map[];
    for k := 0 to |t.messages|
      invariant forall account :: Agrees(t, cursors, k, latest, unread, account)
    {
      var m := t.messages[k];
      ghost var (latest0, unread0) := (latest, unread);
      if InBatch(t, m, cursors) {
        latest := latest[m.account := m];
        if Unread(m, cursors[m.account]) {
          unread := unread[m.account := (if m.account in unread then unread[m.account] else 0) + 1];
        }
      }
      ghost var next := k + 1;
      forall account ensures Agrees(t, cursors, next, latest, unread, account) {
        AgreesStep(t, cursors, k, latest0, unread0, latest, unread, account);
      }
    }
  }

  /** `summarize_app_conversations`: for every listed account it says what the one-conversation queries
      say, and nothing about an account without messages. */
  method SummarizeAppConversations(t: Log, cursors: map<Id, Option<int>>) returns (summary: map<Id, Summary>)
    ensures summary.Keys <= cursors.Keys
    ensures forall account <- cursors ::
              var expected := SummaryOf(History(t, account, APP_SCOPE), cursors[account]);
              if expected.Some? then account in summary && summary[account] == expected.value else account !in summary
  {
    var latest, unread := Aggregate(t, cursors);
    summary := map account | account in latest :: Summary(latest[account], 0);
    var todo := unread.Keys;
    while todo != {}
      invariant todo <= unread.Keys && summary.Keys == latest.Keys
      invariant forall account <- summary ::
        summary[account] == Summary(latest[account], if account in unread && account !in todo then unread[account] else 0)
      decreases todo
    {
      var account :| account in todo;
      if account in summary {
        summary := summary[account := summary[account].(unread := unread[account])];
      }
      todo := todo - {account};
    }
    assert t.messages[..|t.messages|] == t.messages;
    forall account ensures account in latest ==> account in cursors {
      assert Agrees(t, cursors, |t.messages|, latest, unread, account);
    }
    forall account | account in cursors
      ensures var expected := SummaryOf(History(t, account, APP_SCOPE), cursors[account]);
              if expected.Some? then account in summary && summary[account] == expected.value else account !in summary
    {
      assert Agrees(t, cursors, |t.messages|, latest, unread, account);
      assert Prefix(t, account, |t.messages|) == History(t, account, APP_SCOPE);
    }
  }

  /** The assistant's messages of the conversation past the cursor; all of them when nothing was read. */
  function UnreadIds(t: Log, account: Id, cursor: Option<int>): set<int> {
    set m <- t.messages | Listed(t, m, account) && m.role == Assistant && m.id > (match cursor case None => 0 case Some(c) => c) :: m.id
  }

  lemma HistoryIsListed(t: Log, account: Id)
    requires LogOk(t)
    ensures Ascending(History(t, account, APP_SCOPE))
    ensures forall m :: m in History(t, account, APP_SCOPE) <==> m in t.messages && Listed(t, m, account)
  {
    FilterAscending(t.messages, ShownIn(t.sessions, account, APP_SCOPE));
    forall m ensures m in History(t, account, APP_SCOPE) <==> m in t.messages && Listed(t, m, account) {
      ShownIsListed(t, m, account);
    }
  }

  lemma UnreadCount(t: Log, account: Id, cursor: Option<int>)
    requires LogOk(t)
    ensures |Filter(History(t, account, APP_SCOPE), UnreadIn(cursor))| == |UnreadIds(t, account, cursor)|
  {
    HistoryIsListed(t, account);
    var unread := Filter(History(t, account, APP_SCOPE), UnreadIn(cursor));
    FilterAscending(History(t, account, APP_SCOPE), UnreadIn(cursor));
    IdsCount(unread);
    assert (set m | m in unread :: m.id) == UnreadIds(t, account, cursor);
  }

  /** What a summary says, of the messages themselves: it is there exactly when the conversation has one;
      its last is the newest; and it counts the assistant's messages past the cursor. */
  lemma SummarySays(t: Log, account: Id, cursor: Option<int>)
    requires LogOk(t)
    ensures var s := SummaryOf(History(t, account, APP_SCOPE), cursor);
            && (s.None? <==> forall m <- t.messages :: !Listed(t, m, account))
            && (s.Some? ==>
                 && s.value.last in t.messages && Listed(t, s.value.last, account)
                 && (forall m <- t.messages :: Listed(t, m, account) ==> m.id <= s.value.last.id)
                 && s.value.unread == |UnreadIds(t, account, cursor)|)
  {
    var h := History(t, account, APP_SCOPE);
    HistoryIsListed(t, account);
    UnreadCount(t, account, cursor);
    if h != [] {
      assert h[|h| - 1] in h;
      forall m | m in h ensures m.id <= h[|h| - 1].id {
        var i :| 0 <= i < |h| && h[i] == m;
      }
    } else {
      forall m <- t.messages ensures !Listed(t, m, account) {
        assert m !in h;
      }
    }
  }

  lemma {:induction false} IdsCount(s: seq<Message>)
    requires Ascending(s)
    ensures |set m | m in s :: m.id| == |s|
  {
    if s != [] {
      var (pre, last) := (s[..|s| - 1], s[|s| - 1]);
      IdsCount(pre);
      LastIdIsNew(s);
      assert s == pre + [last];
      assert (set m | m in s :: m.id) == (set m | m in pre :: m.id) + {last.id};
    }
  }

  lemma LastIdIsNew(s: seq<Message>)
    requires s != [] && Ascending(s)
    ensures s[|s| - 1].id !in set m | m in s[..|s| - 1] :: m.id
  {
    var pre := s[..|s| - 1];
    forall m | m in pre ensures m.id != s[|s| - 1].id {
      var i :| 0 <= i < |pre| && pre[i] == m;
      assert s[i] == m;
    }
  }
}
