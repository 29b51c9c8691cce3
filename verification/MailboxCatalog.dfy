/** Importing the mailbox letter catalog: plan, retire and create in one transaction, and plan again. */
module MailboxCatalog {
  import opened Wrappers

  const MINGCHAN := "mingchan"

  datatype Template = Template(app: Id, source: string, version: string, active: bool)

  /** What is published under a catalog id, never to change. */
  datatype Letter = Letter(
    character: string, template: Id, version: string, body: string, policy: string, priority: int,
    availableFrom: Option<string>, availableUntil: Option<string>)

  datatype Entry = Entry(letter: Letter, active: bool)

  /** The validated manifest, by catalog id. */
  type Manifest = map<Id, Letter>

  /** What the manifest validation checks across records. */
  ghost predicate ValidManifest(m: Manifest) {
    forall x <- m, y <- m :: m[x].character == m[y].character || m[x].template == m[y].template ==> x == y
  }

  // ---- planning ----

  predicate TemplateUsable(templates: map<Id, Template>, r: Letter) {
    && r.template in templates && templates[r.template].active
    && templates[r.template].source in {"official", "operations"} && templates[r.template].version == r.version
  }

  /** Another row already holds the record's character and version, or its template. */
  predicate Conflicts(entries: map<Id, Entry>, id: Id, r: Letter) {
    exists x <- entries :: x != id
      && ((entries[x].letter.character == r.character && entries[x].letter.version == r.version) || entries[x].letter.template == r.template)
  }

  predicate Faulty(templates: map<Id, Template>, entries: map<Id, Entry>, id: Id, r: Letter) {
    || !TemplateUsable(templates, r)
    || (id in entries && (!entries[id].active || entries[id].letter != r))
    || Conflicts(entries, id, r)
  }

  /** The active rows of the record's character under other ids. */
  function Superseded(entries: map<Id, Entry>, id: Id, r: Letter): set<Id> {
    set x <- entries | entries[x].letter.character == r.character && entries[x].active && x != id
  }

  datatype Report = Report(create: set<Id>, keep: set<Id>, retire: set<Id>, errors: set<Id>)

  function Plan(templates: map<Id, Template>, entries: map<Id, Entry>, m: Manifest, policy: string): Report {
    Report(
      set id <- m | TemplateUsable(templates, m[id]) && id !in entries,
      set id <- m | TemplateUsable(templates, m[id]) && id in entries && entries[id] == Entry(m[id], true),
      set id, x | id in m && TemplateUsable(templates, m[id]) && x in Superseded(entries, id, m[id]) :: x,
      set id <- m | Faulty(templates, entries, id, m[id]) || m[id].policy != policy)
  }

  /** One turn of the loop over the records. */
  method InspectRecord(templates: map<Id, Template>, entries: map<Id, Entry>, id: Id, letter: Letter, policy: string, was: Report)
    returns (r: Report)
    ensures var usable := TemplateUsable(templates, letter);
            && r.create == was.create + (if usable && id !in entries then {id} else {})
            && r.keep == was.keep + (if usable && id in entries && entries[id] == Entry(letter, true) then {id} else {})
            && r.retire == was.retire + (if usable then Superseded(entries, id, letter) else {})
            && r.errors == was.errors + (if Faulty(templates, entries, id, letter) || letter.policy != policy then {id} else {})
  {
    r := was;
    if !TemplateUsable(templates, letter) {
      r := r.(errors := r.errors + {id});
    } else {
      if id !in entries {
        r := r.(create := r.create + {id});
      } else if !entries[id].active || entries[id].letter != letter {
        r := r.(errors := r.errors + {id});
      } else {
        r := r.(keep := r.keep + {id});
      }
      if Conflicts(entries, id, letter) {
        r := r.(errors := r.errors + {id});
      }
      r := r.(retire := r.retire + Superseded(entries, id, letter));
    }
    if letter.policy != policy {
      r := r.(errors := r.errors + {id});
    }
  }

  /** `inspect_import`, and the policy check added to its errors. */
  method InspectImport(templates: map<Id, Template>, entries: map<Id, Entry>, m: Manifest, policy: string) returns (r: Report)
    ensures r == Plan(templates, entries, m, policy)
  {
    r := Report({}, {}, {}, {});
    var done := map[];
    var todo := m.Keys;
    assert Plan(templates, entries, map[], policy) == r;
    while todo != {}
      invariant todo <= m.Keys && done == map id | id in m && id !in todo :: m[id]
      invariant r == Plan(templates, entries, done, policy)
      decreases todo
    {
      var id :| id in todo;
      PlanOneMore(templates, entries, done, policy, id, m[id]);
      r := InspectRecord(templates, entries, id, m[id], policy, r);
      done := done[id := m[id]];
      todo := todo - {id};
    }
    assert done == m;
  }

  lemma RetireOneMore(templates: map<Id, Template>, entries: map<Id, Entry>, m: Manifest, policy: string, id: Id, r: Letter)
    requires id !in m
    ensures Plan(templates, entries, m[id := r], policy).retire
         == Plan(templates, entries, m, policy).retire + if TemplateUsable(templates, r) then Superseded(entries, id, r) else {}
  {
    var m' := m[id := r];
    var (was, now) := (Plan(templates, entries, m, policy).retire, Plan(templates, entries, m', policy).retire);
    forall x | x in was ensures x in now {
      var y :| y in m && TemplateUsable(templates, m[y]) && x in Superseded(entries, y, m[y]);
      assert y in m' && m'[y] == m[y];
    }
    if TemplateUsable(templates, r) {
      forall x | x in Superseded(entries, id, r) ensures x in now {
        assert id in m' && m'[id] == r;
      }
    }
    forall x | x in now ensures x in was || (TemplateUsable(templates, r) && x in Superseded(entries, id, r)) {
      var y :| y in m' && TemplateUsable(templates, m'[y]) && x in Superseded(entries, y, m'[y]);
      assert y != id ==> y in m && m[y] == m'[y];
    }
  }

  lemma VerdictsOneMore(templates: map<Id, Template>, entries: map<Id, Entry>, m: Manifest, policy: string, id: Id, r: Letter)
    requires id !in m
    ensures var (was, now) := (Plan(templates, entries, m, policy), Plan(templates, entries, m[id := r], policy));
            var usable := TemplateUsable(templates, r);
            && now.create == was.create + (if usable && id !in entries then {id} else {})
            && now.keep == was.keep + (if usable && id in entries && entries[id] == Entry(r, true) then {id} else {})
            && now.errors == was.errors + (if Faulty(templates, entries, id, r) || r.policy != policy then {id} else {})
  {
    assert forall x <- m[id := r] :: m[id := r][x] == if x == id then r else m[x];
  }

  lemma PlanOneMore(templates: map<Id, Template>, entries: map<Id, Entry>, m: Manifest, policy: string, id: Id, r: Letter)
    requires id !in m
    ensures var (was, now) := (Plan(templates, entries, m, policy), Plan(templates, entries, m[id := r], policy));
            var usable := TemplateUsable(templates, r);
            && now.create == was.create + (if usable && id !in entries then {id} else {})
            && now.keep == was.keep + (if usable && id in entries && entries[id] == Entry(r, true) then {id} else {})
            && now.retire == was.retire + (if usable then Superseded(entries, id, r) else {})
            && now.errors == was.errors + (if Faulty(templates, entries, id, r) || r.policy != policy then {id} else {})
  {
    VerdictsOneMore(templates, entries, m, policy, id, r);
    RetireOneMore(templates, entries, m, policy, id, r);
  }

  // ---- applying ----

  function Retired(entries: map<Id, Entry>, gone: set<Id>): map<Id, Entry> {
    map x | x in entries :: if x in gone then entries[x].(active := false) else entries[x]
  }

  /** `create_character_letter_catalog_entry`, with its own checks and the unique indexes. */
  function Created(templates: map<Id, Template>, entries: map<Id, Entry>, id: Id, r: Letter): Result<map<Id, Entry>> {
    if !TemplateUsable(templates, r) || templates[r.template].app != MINGCHAN then Err(ScopeMismatch)
    else if exists x <- entries :: entries[x].letter.character == r.character && entries[x].letter.version == r.version
    then
      if exists x <- entries :: entries[x].letter.character == r.character && entries[x].letter.version == r.version
                                && entries[x].letter != r then Err(OwnerMismatch)
      else Ok(entries)
    else if id in entries || exists x <- entries ::
         (entries[x].active && entries[x].letter.character == r.character) || entries[x].letter.template == r.template
    then Err(DatabaseError)
    else Ok(entries[id := Entry(r, true)])
  }

  /** The catalog after a successful import. */
  function Written(entries: map<Id, Entry>, m: Manifest, retired: set<Id>, created: set<Id>): map<Id, Entry>
    requires created <= m.Keys
  {
    map x | x in entries.Keys + created ::
      if x in created then Entry(m[x], true) else if x in retired then entries[x].(active := false) else entries[x]
  }

  function Imported(entries: map<Id, Entry>, m: Manifest, plan: Report): map<Id, Entry>
    requires plan.create <= m.Keys
  {
    Written(entries, m, plan.retire, plan.create)
  }

  /** The inserts check the templates' product, which the plan does not. */
  predicate AllMingchan(templates: map<Id, Template>, m: Manifest, ids: set<Id>) {
    forall id <- ids :: id in m && m[id].template in templates && templates[m[id].template].app == MINGCHAN
  }

  class LetterCatalog {
    var entries: map<Id, Entry>

    constructor (entries: map<Id, Entry>)
      ensures this.entries == entries
    {
      this.entries := entries;
    }

    method CreateEntries(templates: map<Id, Template>, m: Manifest, policy: string, ghost before: map<Id, Entry>, ids: set<Id>)
      returns (ok: bool)
      requires ValidManifest(m) && Plan(templates, before, m, policy).errors == {} && ids == Plan(templates, before, m, policy).create
      requires entries == Retired(before, Plan(templates, before, m, policy).retire)
      modifies this
      ensures ok <==> AllMingchan(templates, m, ids)
      ensures ok ==> entries == Imported(before, m, Plan(templates, before, m, policy))
    {
      ghost var plan := Plan(templates, before, m, policy);
      var todo := ids;
      assert ids - todo == {};
      while todo != {}
        invariant todo <= ids && entries == Written(before, m, plan.retire, ids - todo)
        invariant AllMingchan(templates, m, ids - todo)
        decreases todo
      {
        var id :| id in todo;
        InsertFree(templates, before, m, policy, ids - todo, id);
        var next := Created(templates, entries, id, m[id]);
        if next.Err? { return false; }
        entries := next.value;
        assert (ids - todo) + {id} == ids - (todo - {id});
        todo := todo - {id};
      }
      assert ids - {} == ids;
      return true;
    }

    /** `import_mailbox_catalog`. A plan without errors is carried out, unless it creates an entry for a
        template of another product: then the transaction rolls back. */
    method ImportMailboxCatalog(templates: map<Id, Template>, m: Manifest, policy: string, dryRun: bool)
      returns (r: Result<(Report, bool)>)
      requires ValidManifest(m)
      modifies this
      ensures var plan := Plan(templates, old(entries), m, policy);
              if plan.errors != {} || dryRun then entries == old(entries) && r == Ok((plan, plan.errors == {} && plan.create == {}))
              else if AllMingchan(templates, m, plan.create) then entries == Imported(old(entries), m, plan) && r == Ok((plan, true))
              else entries == old(entries) && r.Err?
    {
      var before := entries;
      var plan := InspectImport(templates, entries, m, policy);
      if plan.errors != {} || dryRun { return Ok((plan, plan.errors == {} && plan.create == {})); }
      entries := Retired(before, plan.retire);
      var created := CreateEntries(templates, m, policy, before, plan.create);
      if created { ImportPublishes(templates, before, m, policy); }
      var ready := created && forall id <- m :: id in entries && entries[id].active;
      entries := if ready then entries else before;
      return if ready then Ok((plan, true)) else Err(DatabaseError);
    }
  }

  lemma Unfaulty(templates: map<Id, Template>, entries: map<Id, Entry>, m: Manifest, policy: string, id: Id)
    requires Plan(templates, entries, m, policy).errors == {} && id in m
    ensures !Faulty(templates, entries, id, m[id]) && m[id].policy == policy
  {
    assert id !in Plan(templates, entries, m, policy).errors;
  }

  /** No row stands in the way of a letter: not its template, not its character and version, and no
      active row of its character. */
  ghost predicate WayClear(now: map<Id, Entry>, r: Letter) {
    forall x <- now :: now[x].letter.template != r.template
      && !(now[x].letter.character == r.character && (now[x].active || now[x].letter.version == r.version))
  }

  lemma ClearForInsert(templates: map<Id, Template>, before: map<Id, Entry>, m: Manifest, policy: string, created: set<Id>, id: Id)
    requires ValidManifest(m) && Plan(templates, before, m, policy).errors == {}
    requires created <= Plan(templates, before, m, policy).create && id in Plan(templates, before, m, policy).create - created
    ensures WayClear(Written(before, m, Plan(templates, before, m, policy).retire, created), m[id])
  {
    var plan := Plan(templates, before, m, policy);
    Unfaulty(templates, before, m, policy, id);
    forall x | x in before && before[x].letter.character == m[id].character && before[x].active ensures x in plan.retire {
      assert x in Superseded(before, id, m[id]);
    }
  }

  lemma CreatedWhenClear(templates: map<Id, Template>, now: map<Id, Entry>, id: Id, r: Letter)
    requires TemplateUsable(templates, r) && id !in now && WayClear(now, r)
    ensures Created(templates, now, id, r)
         == if templates[r.template].app != MINGCHAN then Err(ScopeMismatch) else Ok(now[id := Entry(r, true)])
  {
  }

  lemma WriteOneMore(before: map<Id, Entry>, m: Manifest, retired: set<Id>, created: set<Id>, id: Id)
    requires created <= m.Keys && id in m
    ensures Written(before, m, retired, created)[id := Entry(m[id], true)] == Written(before, m, retired, created + {id})
  {
  }

  /** When a create's turn comes no unique index stands in its way. */
  lemma InsertFree(templates: map<Id, Template>, before: map<Id, Entry>, m: Manifest, policy: string, created: set<Id>, id: Id)
    requires ValidManifest(m) && Plan(templates, before, m, policy).errors == {}
    requires created <= Plan(templates, before, m, policy).create && id in Plan(templates, before, m, policy).create - created
    ensures var retired := Plan(templates, before, m, policy).retire;
            Created(templates, Written(before, m, retired, created), id, m[id])
            == if templates[m[id].template].app != MINGCHAN then Err(ScopeMismatch)
               else Ok(Written(before, m, retired, created + {id}))
  {
    var retired := Plan(templates, before, m, policy).retire;
    Unfaulty(templates, before, m, policy, id);
    ClearForInsert(templates, before, m, policy, created, id);
    CreatedWhenClear(templates, Written(before, m, retired, created), id, m[id]);
    WriteOneMore(before, m, retired, created, id);
  }

  // ---- main results ----

  /** No retired id is in the manifest. */
  lemma RetiredAreNotPublished(templates: map<Id, Template>, entries: map<Id, Entry>, m: Manifest, policy: string)
    requires ValidManifest(m) && Plan(templates, entries, m, policy).errors == {}
    ensures Plan(templates, entries, m, policy).retire !! m.Keys
  {
    forall x | x in Plan(templates, entries, m, policy).retire ensures x !in m {
      var id :| id in m && x in Superseded(entries, id, m[id]);
      if x in m {
        Unfaulty(templates, entries, m, policy, x);
      }
    }
  }

  /** After a successful import every manifest entry is published as given, and is the one active entry
      of its character; nothing else changes but the retirement of entries it supersedes. */
  lemma ImportPublishes(templates: map<Id, Template>, entries: map<Id, Entry>, m: Manifest, policy: string)
    requires ValidManifest(m) && Plan(templates, entries, m, policy).errors == {}
    ensures var plan := Plan(templates, entries, m, policy); var after := Imported(entries, m, plan);
            && (forall id <- m :: id in after && after[id] == Entry(m[id], true))
            && (forall id <- m, x <- after :: after[x].active && after[x].letter.character == m[id].character ==> x == id)
            && (forall x <- entries :: x in after && after[x].letter == entries[x].letter
                  && (after[x] != entries[x] ==> exists id <- m :: x in Superseded(entries, id, m[id])))
            && after.Keys == entries.Keys + plan.create
  {
    var plan := Plan(templates, entries, m, policy);
    var after := Imported(entries, m, plan);
    RetiredAreNotPublished(templates, entries, m, policy);
    forall id | id in m ensures id in after && after[id] == Entry(m[id], true) {
      Unfaulty(templates, entries, m, policy, id);
    }
    forall id, x | id in m && x in after && x != id && after[x].letter.character == m[id].character ensures !after[x].active {
      Unfaulty(templates, entries, m, policy, id);
      assert x in entries && entries[x].active ==> x in Superseded(entries, id, m[id]) && x in plan.retire;
    }
    forall x | x in entries ensures x in after && after[x].letter == entries[x].letter
      && (after[x] != entries[x] ==> exists id <- m :: x in Superseded(entries, id, m[id])) {
    }
  }

  /** Planning the same manifest again finds nothing to create, retire or refuse. */
  lemma ImportConverges(templates: map<Id, Template>, entries: map<Id, Entry>, m: Manifest, policy: string)
    requires ValidManifest(m) && Plan(templates, entries, m, policy).errors == {}
    ensures Plan(templates, Imported(entries, m, Plan(templates, entries, m, policy)), m, policy) == Report({}, m.Keys, {}, {})
  {
    ImportPublishes(templates, entries, m, policy);
    var plan := Plan(templates, entries, m, policy);
    var after := Imported(entries, m, plan);
    var again := Plan(templates, after, m, policy);
    forall id | id in m ensures id in again.keep && id !in again.errors && Superseded(after, id, m[id]) == {} {
      Unfaulty(templates, entries, m, policy, id);
      NoConflictAfter(templates, entries, m, policy, id);
    }
    assert again.retire == {};
  }

  lemma NoConflictAfter(templates: map<Id, Template>, entries: map<Id, Entry>, m: Manifest, policy: string, id: Id)
    requires ValidManifest(m) && Plan(templates, entries, m, policy).errors == {} && id in m
    ensures !Conflicts(Imported(entries, m, Plan(templates, entries, m, policy)), id, m[id])
  {
    Unfaulty(templates, entries, m, policy, id);
  }

  // ---- the plan, field by field ----

  /** The letter's template is there, active, official or of the operations, and of the letter's version. */
  predicate Served(templates: map<Id, Template>, r: Letter) {
    && r.template in templates && templates[r.template].active && templates[r.template].version == r.version
    && (templates[r.template].source == "official" || templates[r.template].source == "operations")
  }

  /** A record is refused exactly when its template does not serve it, its id is retired or published with
      another content, another row holds its character and version or its template, or its policy is not
      the expected one; it is created exactly when its template serves it and its id is unknown. */
  lemma PlanMeans(templates: map<Id, Template>, entries: map<Id, Entry>, m: Manifest, policy: string)
    ensures var plan := Plan(templates, entries, m, policy);
            && (forall id :: id in plan.create <==> id in m && Served(templates, m[id]) && id !in entries)
            && (forall id :: id in plan.errors <==>
                 id in m
                 && (!Served(templates, m[id])
                     || (id in entries && !(entries[id].active && entries[id].letter == m[id]))
                     || (exists x <- entries :: x != id
                          && (entries[x].letter.template == m[id].template
                              || (entries[x].letter.character == m[id].character && entries[x].letter.version == m[id].version)))
                     || m[id].policy != policy))
            && (forall x :: x in plan.retire <==>
                 x in entries && entries[x].active
                 && exists id <- m :: id != x && Served(templates, m[id]) && m[id].character == entries[x].letter.character)
  {
    forall id | id in m ensures TemplateUsable(templates, m[id]) == Served(templates, m[id]) {
    }
    var plan := Plan(templates, entries, m, policy);
    forall x ensures x in plan.retire <==>
      x in entries && entries[x].active && exists id <- m :: id != x && Served(templates, m[id]) && m[id].character == entries[x].letter.character
    {
      if x in entries && entries[x].active
         && exists id <- m :: id != x && Served(templates, m[id]) && m[id].character == entries[x].letter.character {
        var id :| id in m && id != x && Served(templates, m[id]) && m[id].character == entries[x].letter.character;
        assert x in Superseded(entries, id, m[id]);
      }
    }
  }

  /** Creating an entry needs a serving template of this product; a character and version already there
      gives back the same content or is refused; and no id, active character or template may be taken. */
  lemma CreateMeans(templates: map<Id, Template>, entries: map<Id, Entry>, id: Id, r: Letter)
    ensures var made := Created(templates, entries, id, r);
            if !(Served(templates, r) && templates[r.template].app == "mingchan") then made == Err(ScopeMismatch)
            else if forall x <- entries :: !(entries[x].letter.character == r.character && entries[x].letter.version == r.version) then
              made == if id !in entries
                         && (forall x <- entries :: entries[x].letter.template != r.template
                                                    && !(entries[x].active && entries[x].letter.character == r.character))
                      then Ok(entries[id := Entry(r, true)]) else Err(DatabaseError)
            else if forall x <- entries :: entries[x].letter.character == r.character && entries[x].letter.version == r.version ==> entries[x].letter == r
            then made == Ok(entries)
            else made == Err(OwnerMismatch)
  {
    assert TemplateUsable(templates, r) == Served(templates, r);
  }

  // ---- an error-free plan that rolls back ----

  function ForeignTemplates(): map<Id, Template> {
    map["tmpl_1" := Template("zhaoxi", "operations", "v1", true)]
  }

  function OneLetter(): Manifest {
    map["lcat_1" := Letter("mei", "tmpl_1", "v1", "hello", "p1", 0, None, None)]
  }

  /** A manifest for another product's template plans one create and no error, and that create is then
      refused: by the contract of the import, the transaction rolls back. */
  lemma ForeignTemplateRollsBack()
    ensures ValidManifest(OneLetter())
    ensures Plan(ForeignTemplates(), map[], OneLetter(), "p1") == Report({"lcat_1"}, {}, {}, {})
    ensures Created(ForeignTemplates(), map[], "lcat_1", OneLetter()["lcat_1"]).Err?
    ensures !AllMingchan(ForeignTemplates(), OneLetter(), {"lcat_1"})
  {
    var (templates, m) := (ForeignTemplates(), OneLetter());
    assert TemplateUsable(templates, m["lcat_1"]);
    assert !Faulty(templates, map[], "lcat_1", m["lcat_1"]);
    assert Plan(templates, map[], m, "p1").create == {"lcat_1"};
  }
}
