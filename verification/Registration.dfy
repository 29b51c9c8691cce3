/** Registering a platform user: the user, the product membership, and the invitation code spent on it. */
module Registration {
  import opened Wrappers
  import opened Tables
  import opened Referral
  import opened ReferralRuns
  import Runs

  datatype Code = Code(
    text: string, app: Id, owner: Option<Id>, active: bool, expiresAt: Option<int>, maxUses: Option<nat>, used: nat)

  /** platform_users by phone, product_memberships with whether each is active, and referral_codes. */
  datatype People = People(users: map<string, Id>, memberships: map<(Id, Id), bool>, codes: map<Id, Code>)

  /** A registration: its phone and code normalised, and the ids it would draw. */
  datatype SignUp = SignUp(phone: string, app: Id, code: Option<string>, userId: Id, relationId: Id)

  /** What a registration did: whether the membership is new, and the code it spent. */
  datatype Outcome = Outcome(user: Id, joined: bool, spent: Option<Id>)

  // ---- queries ----

  predicate IsMember(memberships: map<(Id, Id), bool>, user: Id, app: Id) {
    (user, app) in memberships && memberships[(user, app)]
  }

  /** `_get_usable_referral_code_in_conn`, for one row. */
  predicate Usable(c: Code, text: string, app: Id, now: int, memberships: map<(Id, Id), bool>) {
    && c.text == text && c.app == app && c.active && (c.expiresAt.Some? ==> c.expiresAt.value > now)
    && (c.maxUses.Some? ==> c.used < c.maxUses.value)
    && (c.owner.Some? ==> IsMember(memberships, c.owner.value, c.app))
  }

  ghost predicate OneCodePerText(codes: map<Id, Code>) {
    forall x <- codes, y <- codes :: codes[x].text == codes[y].text ==> x == y
  }

  /** The usable code of a text; codes are unique by text. */
  ghost function FindCode(codes: map<Id, Code>, text: string, app: Id, now: int, memberships: map<(Id, Id), bool>): (r: Option<Id>)
    ensures r.Some? ==> r.value in codes && Usable(codes[r.value], text, app, now, memberships)
    ensures r.None? ==> forall x <- codes :: !Usable(codes[x], text, app, now, memberships)
  {
    if exists x <- codes :: Usable(codes[x], text, app, now, memberships)
    then var x :| x in codes && Usable(codes[x], text, app, now, memberships); Some(x)
    else None
  }

  // ---- specification ----

  function Joined(t: Tables, user: Id, app: Id): Tables {
    t.(dir := t.dir.(world := t.dir.world.(members := t.dir.world.members + {(user, app)})))
  }

  function Spent(codes: map<Id, Code>, id: Id): map<Id, Code>
    requires id in codes
  {
    codes[id := codes[id].(used := codes[id].used + 1)]
  }

  /** The relationship a spent code brings: none when nobody owns the code. */
  function Related(t: Tables, owner: Option<Id>, user: Id, app: Id, id: Id): Result<Tables> {
    if owner.None? then Ok(t) else RegisteredReferral(t, id, owner.value, user, app)
  }

  /** `register_platform_user_with_referral`: all of it or nothing. */
  ghost function SignedUp(t: Tables, p: People, s: SignUp): Result<(Tables, People, Outcome)> {
    if s.app !in t.dir.world.enabled then Err(AppNotEnabled)
    else if s.phone !in p.users && s.userId in p.users.Values then Err(DatabaseError)
    else
      var user := if s.phone in p.users then p.users[s.phone] else s.userId;
      var users := p.users[s.phone := user];
      if (user, s.app) in p.memberships then
        if !p.memberships[(user, s.app)] then Err(MembershipInactive)
        else Ok((t, p.(users := users), Outcome(user, false, None)))
      else
        var memberships := p.memberships[(user, s.app) := true];
        var joined := Joined(t, user, s.app);
        if s.code.None? then Ok((joined, People(users, memberships, p.codes), Outcome(user, true, None)))
        else match FindCode(p.codes, s.code.value, s.app, t.dir.world.now, memberships)
          case None => Err(InvalidCode)
          case Some(id) =>
            match Related(joined, p.codes[id].owner, user, s.app, s.relationId)
            case Err(e) => Err(e)
            case Ok(t') => Ok((t', People(users, memberships, Spent(p.codes, id)), Outcome(user, true, Some(id))))
  }

  // ---- the call ----

  class PeopleTables {
    var users: map<string, Id>
    var memberships: map<(Id, Id), bool>
    var codes: map<Id, Code>

    constructor (p: People)
      ensures Value() == p
    {
      users, memberships, codes := p.users, p.memberships, p.codes;
    }

    function Value(): People
      reads this
    {
      People(users, memberships, codes)
    }

    method SelectCode(text: string, app: Id, now: int) returns (r: Option<Id>)
      requires OneCodePerText(codes)
      ensures r == FindCode(codes, text, app, now, memberships)
    {
      if x :| x in codes && Usable(codes[x], text, app, now, memberships) {
        return Some(x);
      }
      return None;
    }

    /** Undo everything when a later statement fails. */
    method Restore(p: People)
      modifies this
      ensures Value() == p
    {
      users, memberships, codes := p.users, p.memberships, p.codes;
    }

    /** `_ensure_product_membership_in_conn` */
    method EnsureMembership(conn: Connection, user: Id, app: Id) returns (joined: bool)
      modifies this`memberships, conn`world
      ensures joined == ((user, app) !in old(memberships))
      ensures memberships == if joined then old(memberships)[(user, app) := true] else old(memberships)
      ensures conn.Snapshot() == if joined then Joined(old(conn.Snapshot()), user, app) else old(conn.Snapshot())
    {
      if (user, app) in memberships { return false; }
      memberships := memberships[(user, app) := true];
      conn.world := conn.world.(members := conn.world.members + {(user, app)});
      return true;
    }

    /** The code half: look it up, insert the relationship, count the use. */
    method SpendCode(conn: Connection, user: Id, app: Id, text: string, relationId: Id) returns (r: Result<Id>)
      requires OneCodePerText(codes)
      modifies this`codes, conn`referrals
      ensures match FindCode(old(codes), text, app, old(conn.world).now, old(memberships))
              case None => r == Err(InvalidCode) && codes == old(codes) && conn.Snapshot() == old(conn.Snapshot())
              case Some(id) =>
                match Related(old(conn.Snapshot()), old(codes)[id].owner, user, app, relationId)
                case Err(e) => r == Err(e) && codes == old(codes) && conn.Snapshot() == old(conn.Snapshot())
                case Ok(t) => r == Ok(id) && codes == Spent(old(codes), id) && conn.Snapshot() == t
    {
      var id := SelectCode(text, app, conn.world.now);
      if id.None? { return Err(InvalidCode); }
      var owner := codes[id.value].owner;
      if owner.Some? {
        var registered := RegisterReferral(conn, relationId, owner.value, user, app);
        if registered.Err? { return Err(registered.error); }
      }
      codes := Spent(codes, id.value);
      return Ok(id.value);
    }

    method RegisterPlatformUserWithReferral(conn: Connection, s: SignUp) returns (r: Result<Outcome>)
      requires OneCodePerText(codes)
      modifies this, conn
      ensures match SignedUp(old(conn.Snapshot()), old(Value()), s)
              case Ok(end) => (conn.Snapshot(), Value()) == (end.0, end.1) && r == Ok(end.2)
              case Err(e) => conn.Snapshot() == old(conn.Snapshot()) && Value() == old(Value()) && r == Err(e)
    {
      var (t, p) := (conn.Snapshot(), Value());
      if s.app !in conn.world.enabled { return Err(AppNotEnabled); }
      if s.phone !in users && s.userId in users.Values { return Err(DatabaseError); }
      var user := if s.phone in users then users[s.phone] else s.userId;
      users := users[s.phone := user];
      var joined := EnsureMembership(conn, user, s.app);
      if !memberships[(user, s.app)] {
        Restore(p);
        return Err(MembershipInactive);
      }
      if !joined || s.code.None? { return Ok(Outcome(user, joined, None)); }
      var spent := SpendCode(conn, user, s.app, s.code.value, s.relationId);
      if spent.Err? {
        conn.Rollback(t);
        Restore(p);
        return Err(spent.error);
      }
      return Ok(Outcome(user, true, Some(spent.value)));
    }
  }

  // ---- what registrations keep ----

  /** A relationship comes only with a membership, and never relates a user to itself. */
  ghost predicate RelationsJoined(referrals: map<Id, Relationship>, memberships: map<(Id, Id), bool>) {
    forall x <- referrals ::
      (referrals[x].invitee, referrals[x].app) in memberships && referrals[x].inviter != referrals[x].invitee
  }

  /** No code is spent more often than it may be. */
  ghost predicate WithinUses(codes: map<Id, Code>) {
    forall x <- codes :: codes[x].maxUses.Some? ==> codes[x].used <= codes[x].maxUses.value
  }

  ghost predicate PeopleOk(t: Tables, p: People) {
    && OneReferralEach(t.referrals) && RelationsJoined(t.referrals, p.memberships)
    && OneCodePerText(p.codes) && WithinUses(p.codes)
    && t.dir.world.members == set k <- p.memberships | p.memberships[k]
  }

  lemma RelatedKeeps(t: Tables, memberships: map<(Id, Id), bool>, owner: Option<Id>, user: Id, app: Id, id: Id)
    requires OneReferralEach(t.referrals) && RelationsJoined(t.referrals, memberships) && (user, app) in memberships
    requires Related(t, owner, user, app, id).Ok?
    ensures var t' := Related(t, owner, user, app, id).value;
            OneReferralEach(t'.referrals) && RelationsJoined(t'.referrals, memberships) && t'.dir == t.dir
  {
  }

  lemma SpentKeeps(codes: map<Id, Code>, id: Id, text: string, app: Id, now: int, memberships: map<(Id, Id), bool>)
    requires OneCodePerText(codes) && WithinUses(codes) && id in codes && Usable(codes[id], text, app, now, memberships)
    ensures OneCodePerText(Spent(codes, id)) && WithinUses(Spent(codes, id))
  {
  }

  lemma SignUpKeeps(t: Tables, p: People, s: SignUp)
    requires PeopleOk(t, p) && SignedUp(t, p, s).Ok?
    ensures var (t', p', _) := SignedUp(t, p, s).value; PeopleOk(t', p')
  {
    var (t', p', outcome) := SignedUp(t, p, s).value;
    if outcome.joined {
      var joined := Joined(t, outcome.user, s.app);
      assert joined.dir.world.members == set k <- p'.memberships | p'.memberships[k];
      if outcome.spent.Some? {
        RelatedKeeps(joined, p'.memberships, p.codes[outcome.spent.value].owner, outcome.user, s.app, s.relationId);
        SpentKeeps(p.codes, outcome.spent.value, s.code.value, s.app, t.dir.world.now, p'.memberships);
      }
    }
  }

  /** A code is spent exactly by a registration that gives it and whose membership is new, and then
      once; a relationship is added exactly when that code has an owner, to whom it relates the user. */
  lemma SpendsOnce(t: Tables, p: People, s: SignUp)
    requires SignedUp(t, p, s).Ok?
    ensures var (t', p', outcome) := SignedUp(t, p, s).value;
            && outcome.joined == ((outcome.user, s.app) !in p.memberships)
            && (outcome.spent.Some? <==> outcome.joined && s.code.Some?)
            && p'.codes == (if outcome.spent.Some? then Spent(p.codes, outcome.spent.value) else p.codes)
            && (if outcome.spent.Some? && p.codes[outcome.spent.value].owner.Some? then
                  && s.relationId !in t.referrals && t'.referrals.Keys == t.referrals.Keys + {s.relationId}
                  && var r := t'.referrals[s.relationId];
                     Between(r, outcome.user, s.app) && Some(r.inviter) == p.codes[outcome.spent.value].owner && r.status == Registered
                else t'.referrals == t.referrals)
  {
  }

  /** The code may be spent by a new member: of this text and product, active, not expired, not used up,
      and owned by nobody or by an active member (the newcomer counts as one). */
  predicate MaySpend(t: Tables, p: People, c: Code, text: string, app: Id, newcomer: Id) {
    && c.text == text && c.app == app && c.active
    && (match c.expiresAt case None => true case Some(end) => t.dir.world.now < end)
    && (match c.maxUses case None => true case Some(most) => c.used < most)
    && (match c.owner
        case None => true
        case Some(owner) => owner == newcomer || ((owner, app) in p.memberships && p.memberships[(owner, app)]))
  }

  lemma MaySpendIs(t: Tables, p: People, c: Code, text: string, app: Id, newcomer: Id)
    ensures MaySpend(t, p, c, text, app, newcomer)
         == Usable(c, text, app, t.dir.world.now, p.memberships[(newcomer, app) := true])
  {
  }

  /** Who signs up: the user of the phone, or a new one. */
  function Applicant(p: People, s: SignUp): Id {
    if s.phone in p.users then p.users[s.phone] else s.userId
  }

  /** A spent code was one that may be spent; and a registration is refused for its code exactly when it
      gives one, the user is new to the product, and no code may be spent. */
  lemma OnlyGoodCodes(t: Tables, p: People, s: SignUp)
    requires s.app in t.dir.world.enabled && (s.phone in p.users || s.userId !in p.users.Values)
    ensures var r := SignedUp(t, p, s);
            && (r.Ok? && r.value.2.spent.Some? ==>
                 && s.code.Some? && r.value.2.spent.value in p.codes
                 && MaySpend(t, p, p.codes[r.value.2.spent.value], s.code.value, s.app, Applicant(p, s)))
            && (r == Err(InvalidCode) <==>
                 && s.code.Some? && (Applicant(p, s), s.app) !in p.memberships
                 && forall x <- p.codes :: !MaySpend(t, p, p.codes[x], s.code.value, s.app, Applicant(p, s)))
  {
    MaySpendAll(t, p, s);
  }

  /** The code the newcomer gives is its own. */
  ghost predicate InvitesItself(t: Tables, p: People, s: SignUp) {
    s.code.Some? && exists x <- p.codes ::
      MaySpend(t, p, p.codes[x], s.code.value, s.app, Applicant(p, s)) && p.codes[x].owner == Some(Applicant(p, s))
  }

  ghost predicate NoGoodCode(t: Tables, p: People, s: SignUp) {
    s.code.Some? && forall x <- p.codes :: !MaySpend(t, p, p.codes[x], s.code.value, s.app, Applicant(p, s))
  }

  /** How a registration with unused ids is answered: refused for a product that is not enabled, a disabled
      membership, a code that may not be spent or the applicant's own, and only for these; and otherwise the
      phone has its user and the user its membership, an existing one untouched. */
  lemma SignUpAnswers(t: Tables, p: People, s: SignUp)
    requires PeopleOk(t, p) && s.relationId !in t.referrals && s.userId !in p.users.Values
    ensures var (r, who) := (SignedUp(t, p, s), Applicant(p, s));
            var newcomer := (who, s.app) !in p.memberships;
            if s.app !in t.dir.world.enabled then r == Err(AppNotEnabled)
            else if !newcomer && !p.memberships[(who, s.app)] then r == Err(MembershipInactive)
            else if newcomer && NoGoodCode(t, p, s) then r == Err(InvalidCode)
            else if newcomer && InvitesItself(t, p, s) then r == Err(OwnerMismatch)
            else
              && r.Ok?
              && var (t', p', outcome) := r.value;
                 && outcome.user == who && p'.users == p.users[s.phone := who]
                 && p'.memberships == (if newcomer then p.memberships[(who, s.app) := true] else p.memberships)
                 && t'.dir == t.dir.(world := t.dir.world.(members := t.dir.world.members + {(who, s.app)}))
                 && t'.book == t.book && t'.costs == t.costs && t'.reviews == t.reviews
                 && t'.usage == t.usage && t'.reservations == t.reservations
  {
    MaySpendAll(t, p, s);
  }

  /** A new user whose drawn id is taken cannot be inserted. */
  lemma UserIdTaken(t: Tables, p: People, s: SignUp)
    requires s.app in t.dir.world.enabled && s.phone !in p.users && s.userId in p.users.Values
    ensures SignedUp(t, p, s) == Err(DatabaseError)
  {
  }

  lemma MaySpendAll(t: Tables, p: People, s: SignUp)
    ensures s.code.Some? ==>
              forall x <- p.codes :: MaySpend(t, p, p.codes[x], s.code.value, s.app, Applicant(p, s)) ==
                Usable(p.codes[x], s.code.value, s.app, t.dir.world.now, p.memberships[(Applicant(p, s), s.app) := true])
  {
    if s.code.Some? {
      forall x | x in p.codes
        ensures MaySpend(t, p, p.codes[x], s.code.value, s.app, Applicant(p, s))
             == Usable(p.codes[x], s.code.value, s.app, t.dir.world.now, p.memberships[(Applicant(p, s), s.app) := true])
      {
        MaySpendIs(t, p, p.codes[x], s.code.value, s.app, Applicant(p, s));
      }
    }
  }

  /** The inviter's relationships of the last seven days in the product. */
  function RecentOf(t: Tables, inviter: Id, app: Id): set<Id> {
    set x <- t.referrals | t.referrals[x].inviter == inviter && t.referrals[x].app == app
                           && t.referrals[x].createdAt >= t.dir.world.now - 7 * 86400
                           && t.referrals[x].review != Failed && t.referrals[x].status != PendingRegistration
  }

  /** A new relationship starts registered, uncounted, unreviewed and unrewarded, dated now; and it is put
      under soft review exactly when, with it, its inviter has more than five in seven days. */
  lemma NewRelationship(t: Tables, p: People, s: SignUp)
    requires SignedUp(t, p, s).Ok? && SignedUp(t, p, s).value.2.spent.Some?
    requires p.codes[SignedUp(t, p, s).value.2.spent.value].owner.Some?
    ensures var (t', _, outcome) := SignedUp(t, p, s).value;
            && s.relationId in t'.referrals
            && var r := t'.referrals[s.relationId];
               && Some(r.inviter) == p.codes[outcome.spent.value].owner && r.inviter != r.invitee
               && r.invitee == outcome.user && r.app == s.app
               && r.status == Registered && r.review == Pending && r.count == 0 && r.candidates == [] && r.createdAt == t.dir.world.now
               && r.rewardId == None && r.boundAccount == None && r.releaseAfter == None
               && (r.softReview <==> |RecentOf(t', r.inviter, s.app)| > 5)
               && forall x <- t.referrals :: x in t'.referrals && t'.referrals[x] == t.referrals[x]
  {
    var (t', _, outcome) := SignedUp(t, p, s).value;
    var inviter := p.codes[outcome.spent.value].owner.value;
    var joined := Joined(t, outcome.user, s.app);
    assert t' == RegisteredReferral(joined, s.relationId, inviter, outcome.user, s.app).value;
    HeldWhenMany(joined, s.relationId, inviter, outcome.user, s.app);
  }

  lemma HeldWhenMany(t: Tables, id: Id, inviter: Id, invitee: Id, app: Id)
    requires RegisteredReferral(t, id, inviter, invitee, app).Ok?
    ensures var t' := RegisteredReferral(t, id, inviter, invitee, app).value;
            id in t'.referrals && (t'.referrals[id].softReview <==> |RecentOf(t', inviter, app)| > 5)
  {
    var t' := RegisteredReferral(t, id, inviter, invitee, app).value;
    var added := t.referrals[id := NewReferral(inviter, invitee, app, t.dir.world.now)];
    assert RecentOf(t', inviter, app) == Recent(added, inviter, app, t.dir.world.now - WINDOW);
  }

  /** The unique index on (invitee, app) never stands in the way: a registration whose drawn ids are
      unused fails only for a reason the caller is told. */
  lemma NeverClashes(t: Tables, p: People, s: SignUp)
    requires PeopleOk(t, p) && s.relationId !in t.referrals && s.userId !in p.users.Values
    ensures SignedUp(t, p, s) != Err(DatabaseError)
  {
  }

  /** Registrations keep the invariant over all the billing and referral tables, and move every
      relationship only forward. */
  lemma SignUpKeepsGood(t: Tables, p: People, s: SignUp, homes: Homes)
    requires Runs.Good(t, homes) && SignedUp(t, p, s).Ok?
    ensures Runs.Good(SignedUp(t, p, s).value.0, homes) && AllForward(t.referrals, SignedUp(t, p, s).value.0.referrals)
  {
    var (t', p', outcome) := SignedUp(t, p, s).value;
    if outcome.joined {
      var joined := Joined(t, outcome.user, s.app);
      Runs.DirectoryKeeps(t, joined.dir, homes);
      assert joined == t.(dir := joined.dir);
      if outcome.spent.Some? && p.codes[outcome.spent.value].owner.Some? {
        RegisterKeeps(joined, s.relationId, p.codes[outcome.spent.value].owner.value, outcome.user, s.app);
      }
    }
  }

  // ---- runs ----

  /** The tables, and the codes spent so far as the calls reported them. */
  datatype Desk = Desk(t: Tables, people: People, spent: multiset<Id>)

  ghost function After(d: Desk, s: SignUp): Desk {
    match SignedUp(d.t, d.people, s)
    case Err(_) => d
    case Ok(end) => Desk(end.0, end.1, d.spent + if end.2.spent.Some? then multiset{end.2.spent.value} else multiset{})
  }

  ghost function Run(d: Desk, run: seq<SignUp>): Desk {
    if run == [] then d else After(Run(d, run[..|run| - 1]), run[|run| - 1])
  }

  /** Each code's use count is what it was plus the times it was reported spent. */
  ghost predicate UsesCounted(before: map<Id, Code>, codes: map<Id, Code>, spent: multiset<Id>) {
    && codes.Keys == before.Keys
    && forall c <- before :: codes[c].used == before[c].used + spent[c] && codes[c].maxUses == before[c].maxUses
  }

  lemma SpentCounted(before: map<Id, Code>, codes: map<Id, Code>, spent: multiset<Id>, id: Id)
    requires UsesCounted(before, codes, spent) && id in codes
    ensures UsesCounted(before, Spent(codes, id), spent + multiset{id})
  {
  }

  lemma AfterCounted(before: map<Id, Code>, d: Desk, s: SignUp)
    requires UsesCounted(before, d.people.codes, d.spent)
    ensures UsesCounted(before, After(d, s).people.codes, After(d, s).spent)
  {
    if SignedUp(d.t, d.people, s).Ok? {
      var outcome := SignedUp(d.t, d.people, s).value.2;
      SpendsOnce(d.t, d.people, s);
      if outcome.spent.Some? {
        SpentCounted(before, d.people.codes, d.spent, outcome.spent.value);
      }
    }
  }

  /** Over every run of registrations, failed ones included: the uses are counted exactly, no code goes
      past its limit, and no user is invited twice to a product. */
  lemma {:induction false} RunKeeps(t: Tables, p: People, run: seq<SignUp>)
    requires PeopleOk(t, p)
    ensures var d := Run(Desk(t, p, multiset{}), run);
            PeopleOk(d.t, d.people) && UsesCounted(p.codes, d.people.codes, d.spent)
  {
    if run != [] {
      var (d, s) := (Run(Desk(t, p, multiset{}), run[..|run| - 1]), run[|run| - 1]);
      RunKeeps(t, p, run[..|run| - 1]);
      AfterCounted(p.codes, d, s);
      if SignedUp(d.t, d.people, s).Ok? {
        SignUpKeeps(d.t, d.people, s);
      }
    }
  }
}
