/** The ordered migration chain: which versions a run applies, and what its guards refuse. */
module Migrations {
  import opened Wrappers

  /** The registered versions: 1 to 13, then 19 to 71. */
  const VERSIONS: seq<nat> := Versions()

  function Versions(): seq<nat> { seq(66, (i: nat) => if i < 13 then i + 1 else i + 6) }

  const CONTRACTS: seq<nat> := [40, 42, 44, 45, 46]

  datatype Refusal = ContractBlocked | UnattendedBlocked | UnknownTarget | StartMismatch | TargetNotReached | StepFailed

  datatype Outcome<+T> = Done(value: T) | Refused(why: Refusal)

  /** A database: its schema and data, and the rows of schema_migrations in the order they were added. */
  datatype Db<S> = Db(schema: S, applied: seq<nat>)

  /** The migration bodies, and whether the accounts table exists; a body may fail. */
  datatype Bodies<!S> = Bodies(step: (nat, S) -> Option<S>, hasAccounts: S -> bool)

  function Largest(s: seq<nat>): nat {
    if s == [] then 0
    else var m := Largest(s[..|s| - 1]); if s[|s| - 1] > m then s[|s| - 1] else m
  }

  /** `_applied_schema_version` */
  function Current<S>(db: Db<S>): nat { Largest(db.applied) }

  predicate Wanted(version: nat, current: nat, target: Option<nat>) {
    version > current && (target.None? || version <= target.value)
  }

  /** The loop body: one version taken when wanted, unless an earlier one failed. */
  function Extended<S>(bodies: Bodies<S>, r: Outcome<Db<S>>, v: nat, wanted: bool): Outcome<Db<S>> {
    match r
    case Refused(why) => Refused(why)
    case Done(mid) =>
      if !wanted then Done(mid)
      else match bodies.step(v, mid.schema)
        case None => Refused(StepFailed)
        case Some(schema) => Done(Db(schema, mid.applied + [v]))
  }

  /** The chain from its first version on, taking the versions wanted. */
  function Chain<S>(bodies: Bodies<S>, versions: seq<nat>, current: nat, target: Option<nat>, db: Db<S>): Outcome<Db<S>> {
    if versions == [] then Done(db)
    else
      var v := versions[|versions| - 1];
      Extended(bodies, Chain(bodies, versions[..|versions| - 1], current, target, db), v, Wanted(v, current, target))
  }

  /** `_run_migrations` */
  function Migrated<S>(bodies: Bodies<S>, db: Db<S>, target: Option<nat>): Outcome<Db<S>> {
    Chain(bodies, VERSIONS, Current(db), target, db)
  }

  /** `_guard_automatic_phase1_contract_migrations` */
  predicate ContractGuardBlocks<S>(bodies: Bodies<S>, db: Db<S>) {
    && !(Current(db) == 0 && !bodies.hasAccounts(db.schema))
    && exists v <- CONTRACTS :: Current(db) < v
  }

  /** `_guard_unattended_pg_migrations` */
  predicate UnattendedGuardBlocks<S>(db: Db<S>, allowed: bool) {
    !allowed && exists v <- VERSIONS :: v > Current(db)
  }

  function InitDb<S>(bodies: Bodies<S>, db: Db<S>, allowed: bool): Outcome<Db<S>> {
    if ContractGuardBlocks(bodies, db) then Refused(ContractBlocked)
    else if UnattendedGuardBlocks(db, allowed) then Refused(UnattendedBlocked)
    else Migrated(bodies, db, None)
  }

  function MigrateThrough<S>(bodies: Bodies<S>, db: Db<S>, target: nat, expected: int): Outcome<Db<S>> {
    if target !in VERSIONS then Refused(UnknownTarget)
    else if Current(db) == target then Done(db)
    else if Current(db) != expected then Refused(StartMismatch)
    else match Migrated(bodies, db, Some(target))
      case Refused(why) => Refused(why)
      case Done(db') => if Current(db') != target then Refused(TargetNotReached) else Done(db')
  }

  // ---- the calls, on a database updated in place ----

  class Database<S(!new)> {
    var schema: S
    var applied: seq<nat>
    const bodies: Bodies<S>

    constructor (bodies: Bodies<S>, db: Db<S>)
      ensures Value() == db && this.bodies == bodies
    {
      schema, applied := db.schema, db.applied;
      this.bodies := bodies;
    }

    function Value(): Db<S>
      reads this
    {
      Db(schema, applied)
    }

    method AppliedVersion() returns (v: nat)
      ensures v == Current(Value())
    {
      v := 0;
      for i := 0 to |applied|
        invariant v == Largest(applied[..i])
      {
        assert applied[..i + 1][..i] == applied[..i];
        if applied[i] > v { v := applied[i]; }
      }
      assert applied[..|applied|] == applied;
    }

    /** The loop of `_run_migrations`, inside the caller's transaction. */
    method RunMigrations(target: Option<nat>) returns (r: Outcome<()>)
      modifies this
      ensures r == match Migrated(bodies, old(Value()), target) case Done(_) => Done(()) case Refused(why) => Refused(why)
      ensures r.Done? ==> Migrated(bodies, old(Value()), target) == Done(Value())
    {
      ghost var start := Value();
      var current := AppliedVersion();
      assert current == Current(start);
      for i := 0 to |VERSIONS|
        invariant Chain(bodies, VERSIONS[..i], current, target, start) == Done(Value())
      {
        var v := VERSIONS[i];
        ChainStep(bodies, start, target, i + 1);
        if Wanted(v, current, target) {
          var next := bodies.step(v, schema);
          if next.None? {
            ChainStops(bodies, i + 1, target, start);
            return Refused(StepFailed);
          }
          schema, applied := next.value, applied + [v];
        }
      }
      assert VERSIONS[..|VERSIONS|] == VERSIONS;
      return Done(());
    }

    /** `init_db`; an error rolls the transaction back. */
    method Init(allowed: bool) returns (r: Outcome<()>)
      modifies this
      ensures match InitDb(bodies, old(Value()), allowed)
              case Done(db) => Value() == db && r == Done(())
              case Refused(why) => Value() == old(Value()) && r == Refused(why)
    {
      var (schema0, applied0) := (schema, applied);
      var current := AppliedVersion();
      if !(current == 0 && !bodies.hasAccounts(schema)) {
        if exists v <- CONTRACTS :: current < v { return Refused(ContractBlocked); }
      }
      if !allowed {
        if exists v <- VERSIONS :: v > current { return Refused(UnattendedBlocked); }
      }
      r := RunMigrations(None);
      if r.Refused? {
        schema, applied := schema0, applied0;
      }
    }

    /** `migrate_db_through` */
    method Through(target: nat, expected: int) returns (r: Outcome<(nat, nat)>)
      modifies this
      ensures match MigrateThrough(bodies, old(Value()), target, expected)
              case Done(db) => Value() == db && r == Done((Current(old(Value())), target))
              case Refused(why) => Value() == old(Value()) && r == Refused(why)
    {
      var (schema0, applied0) := (schema, applied);
      if target !in VERSIONS { return Refused(UnknownTarget); }
      var current := AppliedVersion();
      if current == target { return Done((current, current)); }
      if current != expected { return Refused(StartMismatch); }
      var ran := RunMigrations(Some(target));
      if ran.Refused? {
        schema, applied := schema0, applied0;
        return Refused(ran.why);
      }
      var after := AppliedVersion();
      if after != target {
        schema, applied := schema0, applied0;
        return Refused(TargetNotReached);
      }
      return Done((current, after));
    }
  }

  lemma {:induction false} ChainStops<S>(bodies: Bodies<S>, i: nat, target: Option<nat>, db: Db<S>)
    requires i <= |VERSIONS| && Chain(bodies, VERSIONS[..i], Current(db), target, db) == Refused(StepFailed)
    ensures Migrated(bodies, db, target) == Refused(StepFailed)
    decreases |VERSIONS| - i
  {
    if i < |VERSIONS| {
      ChainStep(bodies, db, target, i + 1);
      ChainStops(bodies, i + 1, target, db);
    } else {
      assert VERSIONS[..|VERSIONS|] == VERSIONS;
    }
  }

  // ---- applied versions are a prefix of the chain ----

  ghost predicate PrefixApplied<S>(db: Db<S>) {
    db.applied <= VERSIONS
  }

  /** The chain's versions strictly increase, and the contract versions are among them. */
  lemma ChainIncreases()
    ensures forall i, j :: 0 <= i < j < |VERSIONS| ==> VERSIONS[i] < VERSIONS[j]
    ensures forall v <- VERSIONS :: v > 0
  {
  }

  lemma {:induction false} LargestOfPrefix(k: nat)
    requires k <= |VERSIONS|
    ensures Largest(VERSIONS[..k]) == if k == 0 then 0 else VERSIONS[k - 1]
  {
    if k > 0 {
      LargestOfPrefix(k - 1);
      assert VERSIONS[..k][..k - 1] == VERSIONS[..k - 1];
      ChainIncreases();
    }
  }

  lemma CurrentOf<S>(db: Db<S>)
    requires PrefixApplied(db)
    ensures var k := |db.applied|; Current(db) == if k == 0 then 0 else VERSIONS[k - 1]
    ensures forall i :: 0 <= i < |VERSIONS| ==> (VERSIONS[i] > Current(db) <==> i >= |db.applied|)
  {
    var k := |db.applied|;
    assert db.applied == VERSIONS[..k];
    LargestOfPrefix(k);
    ChainIncreases();
  }

  /** How many versions of the chain a target asks for. */
  function Reach(target: Option<nat>, i: nat): nat
    requires i <= |VERSIONS|
  {
    if i == 0 then 0
    else if target.None? || VERSIONS[i - 1] <= target.value then i else Reach(target, i - 1)
  }

  lemma {:induction false} ReachIs(target: Option<nat>, i: nat)
    requires i <= |VERSIONS|
    ensures Reach(target, i) <= i
    ensures forall j :: 0 <= j < i ==> (target.None? || VERSIONS[j] <= target.value <==> j < Reach(target, i))
  {
    if i > 0 {
      ReachIs(target, i - 1);
      ChainIncreases();
    }
  }

  function Most(a: nat, b: nat): nat { if a < b then b else a }

  /** The schema after the bodies of versions number from..to of the chain. */
  function Stepped<S>(bodies: Bodies<S>, from: nat, upto: nat, schema: S): Option<S>
    requires upto <= |VERSIONS|
    decreases upto
  {
    if upto <= from then Some(schema)
    else match Stepped(bodies, from, upto - 1, schema)
      case None => None
      case Some(mid) => bodies.step(VERSIONS[upto - 1], mid)
  }

  lemma ReachStep<S>(db: Db<S>, target: Option<nat>, i: nat)
    requires PrefixApplied(db) && 0 < i <= |VERSIONS|
    ensures var (was, now) := (Most(|db.applied|, Reach(target, i - 1)), Most(|db.applied|, Reach(target, i)));
            now <= |VERSIONS|
            && if Wanted(VERSIONS[i - 1], Current(db), target) then was == i - 1 && now == i else now == was
  {
    CurrentOf(db);
    ReachIs(target, i);
    ReachIs(target, i - 1);
    if i > 1 && Wanted(VERSIONS[i - 1], Current(db), target) {
      ChainIncreases();
      assert VERSIONS[i - 2] < VERSIONS[i - 1];
    }
  }

  function Expected<S>(bodies: Bodies<S>, db: Db<S>, upto: nat): Outcome<Db<S>>
    requires upto <= |VERSIONS|
  {
    match Stepped(bodies, |db.applied|, upto, db.schema)
    case None => Refused(StepFailed)
    case Some(schema) => Done(Db(schema, VERSIONS[..upto]))
  }

  lemma ExpectedStep<S>(bodies: Bodies<S>, db: Db<S>, upto: nat)
    requires |db.applied| < upto <= |VERSIONS|
    ensures Expected(bodies, db, upto) == Extended(bodies, Expected(bodies, db, upto - 1), VERSIONS[upto - 1], true)
  {
    assert VERSIONS[..upto] == VERSIONS[..upto - 1] + [VERSIONS[upto - 1]];
  }

  lemma ChainStep<S>(bodies: Bodies<S>, db: Db<S>, target: Option<nat>, i: nat)
    requires 0 < i <= |VERSIONS|
    ensures var (v, current) := (VERSIONS[i - 1], Current(db));
            Chain(bodies, VERSIONS[..i], current, target, db)
            == Extended(bodies, Chain(bodies, VERSIONS[..i - 1], current, target, db), v, Wanted(v, current, target))
  {
    assert VERSIONS[..i][..i - 1] == VERSIONS[..i - 1] && VERSIONS[..i][i - 1] == VERSIONS[i - 1];
  }

  /** What a run of the chain comes to: the versions from the first missing one to the target's, each
      once and in order, or a failure that leaves no trace. */
  lemma {:induction false} ChainIs<S>(bodies: Bodies<S>, db: Db<S>, target: Option<nat>, i: nat)
    requires PrefixApplied(db) && i <= |VERSIONS|
    ensures Most(|db.applied|, Reach(target, i)) <= |VERSIONS|
    ensures Chain(bodies, VERSIONS[..i], Current(db), target, db) == Expected(bodies, db, Most(|db.applied|, Reach(target, i)))
  {
    if i == 0 {
      assert db.applied == VERSIONS[..|db.applied|];
    } else {
      ChainIs(bodies, db, target, i - 1);
      ReachStep(db, target, i);
      ChainStep(bodies, db, target, i);
      if Wanted(VERSIONS[i - 1], Current(db), target) {
        ExpectedStep(bodies, db, i);
      }
    }
  }

  lemma MigratedIs<S>(bodies: Bodies<S>, db: Db<S>, target: Option<nat>)
    requires PrefixApplied(db)
    ensures Most(|db.applied|, Reach(target, |VERSIONS|)) <= |VERSIONS|
    ensures Migrated(bodies, db, target) == Expected(bodies, db, Most(|db.applied|, Reach(target, |VERSIONS|)))
  {
    assert VERSIONS[..|VERSIONS|] == VERSIONS;
    ChainIs(bodies, db, target, |VERSIONS|);
  }

  lemma ReachOfVersion(k: nat)
    requires k < |VERSIONS|
    ensures Reach(Some(VERSIONS[k]), |VERSIONS|) == k + 1
  {
    var target := Some(VERSIONS[k]);
    ReachIs(target, |VERSIONS|);
    ChainIncreases();
    assert VERSIONS[k] <= target.value;
    if k + 1 < |VERSIONS| {
      assert VERSIONS[k] < VERSIONS[k + 1];
    }
  }

  // ---- main results ----

  /** One call of either entry point. */
  datatype Call = Init(allowed: bool) | Through(target: nat, expected: int)

  function Answer<S>(bodies: Bodies<S>, db: Db<S>, c: Call): Outcome<Db<S>> {
    match c
    case Init(allowed) => InitDb(bodies, db, allowed)
    case Through(target, expected) => MigrateThrough(bodies, db, target, expected)
  }

  /** A refused or failed call rolls back. */
  function After<S>(bodies: Bodies<S>, db: Db<S>, c: Call): Db<S> {
    var r := Answer(bodies, db, c);
    if r.Done? then r.value else db
  }

  function Run<S>(bodies: Bodies<S>, db: Db<S>, calls: seq<Call>): Db<S> {
    if calls == [] then db else After(bodies, Run(bodies, db, calls[..|calls| - 1]), calls[|calls| - 1])
  }

  /** Whatever calls are made, and whichever fail, the applied versions are a prefix of the chain. */
  lemma {:induction false} RunKeepsPrefix<S>(bodies: Bodies<S>, db: Db<S>, calls: seq<Call>)
    requires PrefixApplied(db)
    ensures PrefixApplied(Run(bodies, db, calls)) && db.applied <= Run(bodies, db, calls).applied
  {
    if calls != [] {
      var mid := Run(bodies, db, calls[..|calls| - 1]);
      RunKeepsPrefix(bodies, db, calls[..|calls| - 1]);
      match calls[|calls| - 1]
      case Init(_) => MigratedIs(bodies, mid, None);
      case Through(target, _) => MigratedIs(bodies, mid, Some(target));
    }
  }

  /** A controlled migration is accepted exactly when its target is known and the start is as expected
      and not past it; then it ends at the target, with exactly the versions up to it. */
  lemma ThroughReaches<S>(bodies: Bodies<S>, db: Db<S>, k: nat, expected: int)
    requires PrefixApplied(db) && k < |VERSIONS|
    ensures var (r, n) := (MigrateThrough(bodies, db, VERSIONS[k], expected), |db.applied|);
            if n == k + 1 then r == Done(db)
            else if Current(db) != expected then r == Refused(StartMismatch)
            else if n > k + 1 then r == Refused(TargetNotReached)
            else match Stepped(bodies, n, k + 1, db.schema)
              case None => r == Refused(StepFailed)
              case Some(schema) => r == Done(Db(schema, VERSIONS[..k + 1]))
  {
    CurrentOf(db);
    ChainIncreases();
    MigratedIs(bodies, db, Some(VERSIONS[k]));
    ReachOfVersion(k);
    LargestOfPrefix(k + 1);
    var n := |db.applied|;
    if n > k + 1 {
      assert VERSIONS[k] < VERSIONS[n - 1];
      LargestOfPrefix(n);
    }
  }

  lemma {:induction false} SteppedTwice<S>(bodies: Bodies<S>, from: nat, mid: nat, upto: nat, schema: S)
    requires from <= mid <= upto <= |VERSIONS| && Stepped(bodies, from, mid, schema).Some?
    ensures Stepped(bodies, from, upto, schema) == Stepped(bodies, mid, upto, Stepped(bodies, from, mid, schema).value)
    decreases upto
  {
    if upto > mid {
      SteppedTwice(bodies, from, mid, upto - 1, schema);
    }
  }

  /** Migrating to version a and then to b is migrating straight to b, failures included. */
  lemma MigrateInStages<S>(bodies: Bodies<S>, db: Db<S>, a: nat, b: nat)
    requires PrefixApplied(db) && |db.applied| <= a + 1 && a < b < |VERSIONS|
    ensures var direct := MigrateThrough(bodies, db, VERSIONS[b], Current(db));
            match MigrateThrough(bodies, db, VERSIONS[a], Current(db))
            case Refused(why) => direct == Refused(why)
            case Done(mid) => PrefixApplied(mid) && MigrateThrough(bodies, mid, VERSIONS[b], Current(mid)) == direct
  {
    var n := |db.applied|;
    ThroughReaches(bodies, db, a, Current(db));
    ThroughReaches(bodies, db, b, Current(db));
    match Stepped(bodies, n, a + 1, db.schema)
    case None => StuckStays(bodies, n, a + 1, b + 1, db.schema);
    case Some(schema) =>
      SteppedTwice(bodies, n, a + 1, b + 1, db.schema);
      var mid := if n == a + 1 then db else Db(schema, VERSIONS[..a + 1]);
      ThroughReaches(bodies, mid, b, Current(mid));
  }

  lemma {:induction false} StuckStays<S>(bodies: Bodies<S>, from: nat, mid: nat, upto: nat, schema: S)
    requires mid <= upto <= |VERSIONS| && Stepped(bodies, from, mid, schema).None?
    ensures Stepped(bodies, from, upto, schema).None?
    decreases upto
  {
    if upto > mid {
      StuckStays(bodies, from, mid, upto - 1, schema);
    }
  }

  /** An ordinary start never takes a database that already has accounts over a contract version: it
      succeeds only when all of them are behind it. */
  lemma InitSkipsContracts<S>(bodies: Bodies<S>, db: Db<S>, allowed: bool)
    requires PrefixApplied(db) && (bodies.hasAccounts(db.schema) || db.applied != [])
    ensures InitDb(bodies, db, allowed).Refused? || forall v <- CONTRACTS :: v in db.applied
    ensures InitDb(bodies, db, allowed) == Refused(ContractBlocked) <==> exists v <- CONTRACTS :: v !in db.applied
  {
    CurrentOf(db);
    ChainIncreases();
    MigratedIs(bodies, db, None);
    ContractsAt();
    forall v <- CONTRACTS ensures v in db.applied <==> v <= Current(db) {
      var i :| 0 <= i < |VERSIONS| && VERSIONS[i] == v;
      if i < |db.applied| {
        assert db.applied[i] == v;
      }
    }
  }

  lemma ContractsAt()
    ensures forall v <- CONTRACTS :: v in VERSIONS
  {
    forall v <- CONTRACTS ensures v in VERSIONS {
      assert VERSIONS[v - 6] == v;
    }
  }

  /** A process that has not opted in never applies a version; and one that has, unless blocked or
      stopped by a failing body, brings the database to the whole chain. */
  lemma InitNeedsOptIn<S>(bodies: Bodies<S>, db: Db<S>, allowed: bool)
    requires PrefixApplied(db)
    ensures var r := InitDb(bodies, db, allowed);
            && (!allowed && r.Done? ==> r.value == db && db.applied == VERSIONS)
            && (r.Done? ==> r.value.applied == VERSIONS)
            && (r == Refused(UnattendedBlocked) ==> !allowed && db.applied != VERSIONS)
  {
    CurrentOf(db);
    MigratedIs(bodies, db, None);
    ReachIs(None, |VERSIONS|);
    assert Reach(None, |VERSIONS|) == |VERSIONS|;
    assert VERSIONS[..|VERSIONS|] == VERSIONS;
    var k := |db.applied|;
    if k < |VERSIONS| {
      assert VERSIONS[k] in VERSIONS && VERSIONS[k] > Current(db);
    } else {
      assert db.applied == VERSIONS;
    }
  }

  /** The chain is 1 to 13 and then 19 to 71; the contract versions are 40, 42, 44, 45 and 46. */
  lemma VersionsAre(v: nat)
    ensures v in VERSIONS <==> 1 <= v <= 13 || 19 <= v <= 71
    ensures v in CONTRACTS <==> v == 40 || v == 42 || v == 44 || v == 45 || v == 46
  {
    if 1 <= v <= 13 {
      assert VERSIONS[v - 1] == v;
    } else if 19 <= v <= 71 {
      assert VERSIONS[v - 6] == v;
    }
  }

  /** Both guards and the chain, said of the applied versions: an ordinary start of a database that is not
      empty is blocked while a contract version is missing; without opt-in it is blocked while any is. */
  lemma InitAnswers<S>(bodies: Bodies<S>, db: Db<S>, allowed: bool)
    requires PrefixApplied(db)
    ensures var r := InitDb(bodies, db, allowed);
            if (db.applied != [] || bodies.hasAccounts(db.schema)) && !(forall v <- [40, 42, 44, 45, 46] :: v in db.applied)
            then r == Refused(ContractBlocked)
            else if !allowed && db.applied != VERSIONS then r == Refused(UnattendedBlocked)
            else r == match Stepped(bodies, |db.applied|, |VERSIONS|, db.schema)
                      case None => Refused(StepFailed)
                      case Some(schema) => Done(Db(schema, VERSIONS))
  {
    CurrentOf(db);
    InitNeedsOptIn(bodies, db, allowed);
    MigratedIs(bodies, db, None);
    ReachIs(None, |VERSIONS|);
    assert Reach(None, |VERSIONS|) == |VERSIONS| && VERSIONS[..|VERSIONS|] == VERSIONS;
    if db.applied != [] || bodies.hasAccounts(db.schema) {
      InitSkipsContracts(bodies, db, allowed);
    } else {
      assert Current(db) == 0;
    }
    UnattendedMeans(db, allowed);
  }

  lemma UnattendedMeans<S>(db: Db<S>, allowed: bool)
    requires PrefixApplied(db)
    ensures UnattendedGuardBlocks(db, allowed) <==> !allowed && db.applied != VERSIONS
  {
    CurrentOf(db);
    var k := |db.applied|;
    if k < |VERSIONS| {
      assert VERSIONS[k] in VERSIONS && VERSIONS[k] > Current(db);
    } else {
      assert db.applied == VERSIONS;
    }
  }
}
