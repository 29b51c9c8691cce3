/** Importing the preset template catalog: plan, apply in one transaction, and plan again. */
module PresetCatalog {
  import opened Wrappers

  const MINGCHAN := "mingchan"
  const MIN_INITIAL_CANDIDATES := 4

  /** A character_templates row; the JSON columns are held as the values they parse to. */
  datatype Template = Template(
    app: Id, source: string, owner: Option<Id>, name: string, avatar: string, summary: string, tags: seq<string>,
    persona: string, personaVersion: string, active: bool, rank: Option<int>,
    personaKey: Option<string>, longSummary: Option<string>, namePool: Option<seq<string>>, poolVersion: Option<string>)

  /** A validated manifest record; no name pool is the empty one. */
  datatype Record = Record(
    rank: int, name: string, avatar: string, summary: string, tags: seq<string>, persona: string, personaVersion: string,
    personaKey: Option<string>, longSummary: Option<string>, namePool: seq<string>, poolVersion: Option<string>)

  /** The records by template id. */
  type Manifest = map<Id, Record>

  predicate Truthy(s: Option<string>) { s.Some? && s.value != "" }

  predicate Complete(name: string, avatar: string, summary: string, tags: seq<string>, personaVersion: string) {
    name != "" && avatar != "" && summary != "" && personaVersion != "" && |tags| == 3 && "" !in tags
  }

  /** What `validate_manifest` accepts: enough complete records, with the ranks 1..N, one each. */
  ghost predicate ValidManifest(m: Manifest) {
    && |m| >= MIN_INITIAL_CANDIDATES
    && (forall id <- m :: 1 <= m[id].rank <= |m|
          && Complete(m[id].name, m[id].avatar, m[id].summary, m[id].tags, m[id].personaVersion)
          && (m[id].namePool == [] <==> !Truthy(m[id].poolVersion)))
    && forall x <- m, y <- m :: m[x].rank == m[y].rank ==> x == y
  }

  // ---- planning ----

  predicate ImmutableMatches(row: Template, r: Record) {
    && row.source == "operations" && row.owner.None? && row.name == r.name && row.avatar == r.avatar
    && row.summary == r.summary && row.tags == r.tags && row.persona == r.persona
    && row.personaVersion == r.personaVersion && row.rank == Some(r.rank)
  }

  /** `_operational_updates`, applied: what the manifest does not give is left alone. */
  function Updated(row: Template, r: Record): Template {
    row.(personaKey := if Truthy(r.personaKey) then r.personaKey else row.personaKey,
         longSummary := if Truthy(r.longSummary) then r.longSummary else row.longSummary,
         namePool := if r.namePool != [] then Some(r.namePool) else row.namePool,
         poolVersion := if r.namePool != [] then r.poolVersion else row.poolVersion)
  }

  datatype Verdict = Create | Keep | Update | Error

  /** What the plan says of one record. */
  function VerdictOn(templates: map<Id, Template>, id: Id, r: Record): Verdict {
    if id !in templates then Create
    else
      var row := templates[id];
      if row.app != MINGCHAN then Error
      else if !row.active then Error
      else if !ImmutableMatches(row, r) then Error
      else if Truthy(r.personaKey) && Truthy(row.personaKey) && row.personaKey != r.personaKey then Error
      else if Updated(row, r) != row then Update else Keep
  }

  /** The active ranked templates of the product. */
  function Ranked(templates: map<Id, Template>): set<Id> {
    set id <- templates | templates[id].app == MINGCHAN && templates[id].active && templates[id].rank.Some?
  }

  datatype Report = Report(create: set<Id>, keep: set<Id>, retire: set<Id>, errors: set<Id>, update: set<Id>)

  function With(templates: map<Id, Template>, m: Manifest, v: Verdict): set<Id> {
    set id <- m | VerdictOn(templates, id, m[id]) == v
  }

  function Plan(templates: map<Id, Template>, m: Manifest): Report {
    Report(With(templates, m, Create), With(templates, m, Keep) + With(templates, m, Update),
           Ranked(templates) - m.Keys, With(templates, m, Error), With(templates, m, Update))
  }

  /** One turn of the loop over the manifest. */
  function Noted(r: Report, id: Id, v: Verdict): Report {
    match v
    case Create => r.(create := r.create + {id})
    case Keep => r.(keep := r.keep + {id})
    case Update => r.(keep := r.keep + {id}, update := r.update + {id})
    case Error => r.(errors := r.errors + {id})
  }

  /** The plan for the first records, before the rows to retire are known. */
  function Verdicts(templates: map<Id, Template>, m: Manifest): Report {
    Report(With(templates, m, Create), With(templates, m, Keep) + With(templates, m, Update), {},
           With(templates, m, Error), With(templates, m, Update))
  }

  lemma WithOneMore(templates: map<Id, Template>, m: Manifest, v: Verdict, id: Id, r: Record)
    requires id !in m
    ensures With(templates, m[id := r], v) == With(templates, m, v) + if VerdictOn(templates, id, r) == v then {id} else {}
  {
    assert forall x <- m[id := r] :: m[id := r][x] == if x == id then r else m[x];
  }

  lemma VerdictsOneMore(templates: map<Id, Template>, m: Manifest, id: Id, r: Record)
    requires id !in m
    ensures Verdicts(templates, m[id := r]) == Noted(Verdicts(templates, m), id, VerdictOn(templates, id, r))
  {
    WithOneMore(templates, m, Create, id, r);
    WithOneMore(templates, m, Keep, id, r);
    WithOneMore(templates, m, Update, id, r);
    WithOneMore(templates, m, Error, id, r);
  }

  /** `inspect_import`: the loop over the manifest, then the rows to retire. */
  method InspectImport(templates: map<Id, Template>, m: Manifest) returns (r: Report)
    ensures r == Plan(templates, m)
  {
    r := Report({}, {}, {}, {}, {});
    var done: Manifest := map[];
    var todo := m.Keys;
    assert Verdicts(templates, map[]) == r;
    while todo != {}
      invariant todo <= m.Keys && done == map id | id in m && id !in todo :: m[id]
      invariant r == Verdicts(templates, done)
      decreases todo
    {
      var id :| id in todo;
      VerdictsOneMore(templates, done, id, m[id]);
      r := Noted(r, id, VerdictOn(templates, id, m[id]));
      done := done[id := m[id]];
      todo := todo - {id};
    }
    assert done == m;
    r := r.(retire := Ranked(templates) - m.Keys);
  }

  // ---- applying ----

  function RowOf(r: Record): Template {
    Template(MINGCHAN, "operations", None, r.name, r.avatar, r.summary, r.tags, r.persona, r.personaVersion, true,
             Some(r.rank), r.personaKey, r.longSummary, if r.namePool == [] then None else Some(r.namePool), r.poolVersion)
  }

  /** The table once the retired rows, and those of the given created and updated ids, are written. */
  function Written(templates: map<Id, Template>, m: Manifest, retired: set<Id>, created: set<Id>, updated: set<Id>): map<Id, Template>
    requires created <= m.Keys && updated <= m.Keys
  {
    map id | id in templates.Keys + created ::
      if id in created then RowOf(m[id])
      else if id in updated then Updated(templates[id], m[id])
      else if id in retired then templates[id].(active := false)
      else templates[id]
  }

  function Imported(templates: map<Id, Template>, m: Manifest): map<Id, Template> {
    var plan := Plan(templates, m);
    Written(templates, m, plan.retire, plan.create, plan.update)
  }

  /** The unique index on the ranks of a product's active templates. */
  predicate RankTaken(templates: map<Id, Template>, rank: int) {
    exists id <- templates :: templates[id].app == MINGCHAN && templates[id].active && templates[id].rank == Some(rank)
  }

  /** `_catalog_ready`: the rows in rank order pass as a manifest. */
  predicate CatalogReady(templates: map<Id, Template>) {
    var ids := Ranked(templates);
    && |ids| >= MIN_INITIAL_CANDIDATES
    && (forall id <- ids :: 1 <= templates[id].rank.value <= |ids|
          && Complete(templates[id].name, templates[id].avatar, templates[id].summary, templates[id].tags, templates[id].personaVersion))
    && forall x <- ids, y <- ids :: templates[x].rank == templates[y].rank ==> x == y
  }

  class TemplateTable {
    var templates: map<Id, Template>

    constructor (templates: map<Id, Template>)
      ensures this.templates == templates
    {
      this.templates := templates;
    }

    /** The inserts: no id or rank is taken when its turn comes. */
    method InsertTemplates(m: Manifest, ghost before: map<Id, Template>, ids: set<Id>) returns (ok: bool)
      requires ValidManifest(m) && Plan(before, m).errors == {} && ids == Plan(before, m).create
      requires templates == Written(before, m, Plan(before, m).retire, {}, {})
      modifies this
      ensures ok && templates == Written(before, m, Plan(before, m).retire, ids, {})
    {
      ghost var retired := Plan(before, m).retire;
      var todo := ids;
      assert ids - todo == {};
      while todo != {}
        invariant todo <= ids && templates == Written(before, m, retired, ids - todo, {})
        decreases todo
      {
        var id :| id in todo;
        RankFree(before, m, ids - todo, id);
        if id in templates || RankTaken(templates, m[id].rank) { return false; }
        WriteCreate(before, m, retired, ids - todo, id);
        templates := templates[id := RowOf(m[id])];
        assert ids - todo + {id} == ids - (todo - {id});
        todo := todo - {id};
      }
      assert ids - {} == ids;
      return true;
    }

    /** The in-place updates of the operational columns. */
    method UpdateTemplates(m: Manifest, ghost before: map<Id, Template>, ids: set<Id>)
      requires ids == Plan(before, m).update
      requires templates == Written(before, m, Plan(before, m).retire, Plan(before, m).create, {})
      modifies this
      ensures templates == Imported(before, m)
    {
      ghost var plan := Plan(before, m);
      var todo := ids;
      assert ids - todo == {};
      while todo != {}
        invariant todo <= ids && templates == Written(before, m, plan.retire, plan.create, ids - todo)
        decreases todo
      {
        var id :| id in todo;
        WriteUpdate(before, m, ids - todo, id);
        templates := templates[id := Updated(templates[id], m[id])];
        assert ids - todo + {id} == ids - (todo - {id});
        todo := todo - {id};
      }
      assert ids - {} == ids;
    }

    /** `import_presets`. It never fails once the plan has no errors: no insert meets an id or a rank
        that is taken, and the catalog check at the end passes. */
    method ImportPresets(m: Manifest, dryRun: bool) returns (r: Result<(Report, bool)>)
      requires ValidManifest(m)
      modifies this
      ensures var plan := Plan(old(templates), m);
              if plan.errors != {} || dryRun then
                templates == old(templates) && r == Ok((plan, CatalogReady(old(templates))))
              else templates == Imported(old(templates), m) && r == Ok((plan, true))
    {
      var before := templates;
      var plan := InspectImport(templates, m);
      if plan.errors != {} || dryRun { return Ok((plan, CatalogReady(templates))); }
      templates := map id | id in before :: if id in plan.retire then before[id].(active := false) else before[id];
      assert templates == Written(before, m, plan.retire, {}, {});
      var ok := InsertTemplates(m, before, plan.create);
      UpdateTemplates(m, before, plan.update);
      ImportReady(before, m);
      var ready := ok && CatalogReady(templates);
      templates := if ready then templates else before;
      return if ready then Ok((plan, true)) else Err(DatabaseError);
    }
  }

  lemma WriteCreate(before: map<Id, Template>, m: Manifest, retired: set<Id>, created: set<Id>, id: Id)
    requires created <= m.Keys && id in m
    ensures Written(before, m, retired, created, {})[id := RowOf(m[id])] == Written(before, m, retired, created + {id}, {})
  {
  }

  lemma WriteUpdate(before: map<Id, Template>, m: Manifest, updated: set<Id>, id: Id)
    requires updated <= m.Keys && id in Plan(before, m).update && id !in updated
    ensures var (plan, now) := (Plan(before, m), Written(before, m, Plan(before, m).retire, Plan(before, m).create, updated));
            id in now && now[id := Updated(now[id], m[id])] == Written(before, m, plan.retire, plan.create, updated + {id})
  {
  }

  /** While the creates are written, neither the id nor the rank of one still to write is taken. */
  lemma RankFree(before: map<Id, Template>, m: Manifest, created: set<Id>, id: Id)
    requires ValidManifest(m) && Plan(before, m).errors == {} && created <= Plan(before, m).create
    requires id in Plan(before, m).create && id !in created
    ensures id !in Written(before, m, Plan(before, m).retire, created, {})
    ensures !RankTaken(Written(before, m, Plan(before, m).retire, created, {}), m[id].rank)
  {
    var plan := Plan(before, m);
    var now := Written(before, m, plan.retire, created, {});
    forall x | x in now && now[x].app == MINGCHAN && now[x].active && now[x].rank.Some? ensures x in m && now[x].rank == Some(m[x].rank) {
      if x !in created && x in m {
        assert x !in plan.errors;
      }
    }
  }

  // ---- main results ----

  /** After a successful import the active ranked templates are exactly the manifest, with its ranks, .. */
  lemma ImportIsManifest(before: map<Id, Template>, m: Manifest)
    requires Plan(before, m).errors == {}
    ensures Ranked(Imported(before, m)) == m.Keys
    ensures forall id <- m :: id in Imported(before, m) && ImmutableMatches(Imported(before, m)[id], m[id])
    ensures forall id <- before :: id !in m ==>
              id in Imported(before, m)
              && Imported(before, m)[id] == before[id].(active := before[id].active && id !in Ranked(before))
  {
    var (plan, after) := (Plan(before, m), Imported(before, m));
    forall id | id in m ensures id in after && ImmutableMatches(after[id], m[id]) && id in Ranked(after) {
      assert id !in plan.errors;
    }
    forall id | id in Ranked(after) ensures id in m {
    }
  }

  lemma ImportReady(before: map<Id, Template>, m: Manifest)
    requires ValidManifest(m) && Plan(before, m).errors == {}
    ensures CatalogReady(Imported(before, m))
  {
    ImportIsManifest(before, m);
    assert m.Keys == Ranked(Imported(before, m));
    assert |m| == |m.Keys|;
  }

  lemma KeptAfter(before: map<Id, Template>, m: Manifest, id: Id)
    requires Plan(before, m).errors == {} && id in m
    ensures VerdictOn(Imported(before, m), id, m[id]) == Keep
  {
    ImportIsManifest(before, m);
    assert id !in Plan(before, m).errors;
    var row := Imported(before, m)[id];
    assert row == if id in before then Updated(before[id], m[id]) else RowOf(m[id]);
    assert id in Ranked(Imported(before, m));
  }

  /** .. and planning the same manifest again finds nothing to create, retire, update or refuse. */
  lemma ImportConverges(before: map<Id, Template>, m: Manifest)
    requires Plan(before, m).errors == {}
    ensures Plan(Imported(before, m), m) == Report({}, m.Keys, {}, {}, {})
  {
    ImportIsManifest(before, m);
    forall id | id in m ensures VerdictOn(Imported(before, m), id, m[id]) == Keep {
      KeptAfter(before, m, id);
    }
  }

  /** So importing it again changes nothing. */
  lemma ImportTwice(before: map<Id, Template>, m: Manifest)
    requires Plan(before, m).errors == {}
    ensures Imported(Imported(before, m), m) == Imported(before, m)
  {
    ImportConverges(before, m);
  }

  // ---- the plan and its outcome, field by field ----

  /** The published fields of a row are the record's: an operations template of nobody's, at its rank. */
  predicate Publishes(row: Template, r: Record) {
    && row.source == "operations" && row.owner == None && row.rank == Some(r.rank) && row.name == r.name && row.avatar == r.avatar
    && row.summary == r.summary && row.tags == r.tags && row.persona == r.persona && row.personaVersion == r.personaVersion
  }

  /** Two different identities are both given. */
  predicate IdentityClash(row: Template, r: Record) {
    r.personaKey.Some? && r.personaKey.value != "" && row.personaKey.Some? && row.personaKey.value != "" && row.personaKey != r.personaKey
  }

  /** A record is refused exactly when its id belongs to another product, or to a retired template, or to
      one that publishes something else, or to one of another identity; it is created exactly when its id
      is unknown. What else is active and ranked in the product is retired. */
  lemma PlanMeans(templates: map<Id, Template>, m: Manifest)
    ensures var plan := Plan(templates, m);
            && (forall id :: id in plan.create <==> id in m && id !in templates)
            && (forall id :: id in plan.errors <==>
                 id in m && id in templates
                 && (templates[id].app != "mingchan" || !templates[id].active || !Publishes(templates[id], m[id])
                     || IdentityClash(templates[id], m[id])))
            && (forall id :: id in plan.keep <==> id in m && id in templates && id !in plan.errors)
            && (forall id :: id in plan.retire <==>
                 id in templates && id !in m && templates[id].app == "mingchan" && templates[id].active && templates[id].rank.Some?)
  {
    forall id | id in m && id in templates ensures ImmutableMatches(templates[id], m[id]) == Publishes(templates[id], m[id]) {
    }
  }

  function Given(new': Option<string>, was: Option<string>): Option<string> {
    if new'.Some? && new'.value != "" then new' else was
  }

  /** After an import each template of the manifest publishes its record, is active and of the product, and
      carries the record's operational fields where the record gives any, and what it had where it does
      not; a created one has none of those it is not given. */
  lemma ImportedRow(before: map<Id, Template>, m: Manifest, id: Id)
    requires Plan(before, m).errors == {} && id in m
    ensures var (after, r) := (Imported(before, m), m[id]);
            && id in after
            && var row := after[id];
               && row.app == "mingchan" && row.active && Publishes(row, r)
               && (if id in before then
                     && row.personaKey == Given(r.personaKey, before[id].personaKey)
                     && row.longSummary == Given(r.longSummary, before[id].longSummary)
                     && (if r.namePool == [] then row.namePool == before[id].namePool && row.poolVersion == before[id].poolVersion
                         else row.namePool == Some(r.namePool) && row.poolVersion == r.poolVersion)
                   else
                     && row.personaKey == r.personaKey && row.longSummary == r.longSummary && row.poolVersion == r.poolVersion
                     && row.namePool == (if r.namePool == [] then None else Some(r.namePool)))
  {
    PlanMeans(before, m);
    assert id !in Plan(before, m).errors;
    ImportIsManifest(before, m);
    assert id in Ranked(Imported(before, m));
  }

  /** The final check passes exactly when the active ranked templates are at least four, complete, and
      ranked 1..N. */
  lemma ReadyMeans(templates: map<Id, Template>)
    ensures var ids := set id <- templates | templates[id].app == "mingchan" && templates[id].active && templates[id].rank.Some?;
            CatalogReady(templates) <==>
              && |ids| >= 4
              && (forall id <- ids :: 1 <= templates[id].rank.value <= |ids|
                    && templates[id].name != "" && templates[id].avatar != "" && templates[id].summary != ""
                    && templates[id].personaVersion != "" && |templates[id].tags| == 3 && forall tag <- templates[id].tags :: tag != "")
              && forall x <- ids, y <- ids :: templates[x].rank == templates[y].rank ==> x == y
  {
    assert Ranked(templates) == set id <- templates | templates[id].app == "mingchan" && templates[id].active && templates[id].rank.Some?;
  }
}
