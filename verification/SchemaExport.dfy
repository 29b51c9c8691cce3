/** Trimming the exported schema: collecting references, and closing over them. */
module SchemaExport {
  datatype Node = Dict(entries: map<string, Node>) | List(items: seq<Node>) | Text(text: string) | Scalar

  const CLIENT_PREFIX := "/api/v1/products/mingchan/"
  const SCHEMA_PREFIX := "#/components/schemas/"

  /** ref.rsplit("/", 1)[-1] */
  function AfterLastSlash(s: string): string {
    if s == "" || s[|s| - 1] == '/' then "" else AfterLastSlash(s[..|s| - 1]) + [s[|s| - 1]]
  }

  /** The schema name an object's own $ref gives, if any. */
  function OwnRef(entries: map<string, Node>): set<string> {
    if "$ref" in entries && entries["$ref"].Text? && SCHEMA_PREFIX <= entries["$ref"].text
    then {AfterLastSlash(entries["$ref"].text)} else {}
  }

  /** Whether the name is referred to somewhere inside the node. */
  predicate Refers(node: Node, name: string) {
    match node
    case Dict(entries) => name in OwnRef(entries) || exists k <- entries :: Refers(entries[k], name)
    case List(items) => exists i :: 0 <= i < |items| && Refers(items[i], name)
    case Text(_) => false
    case Scalar => false
  }

  class NameSet {
    var names: set<string>

    constructor ()
      ensures names == {}
    {
      names := {};
    }
  }

  /** `_collect_schema_refs`, adding to the set it is passed. */
  method CollectSchemaRefs(node: Node, found: NameSet)
    modifies found
    ensures forall name :: name in found.names <==> name in old(found.names) || Refers(node, name)
    decreases node
  {
    match node
    case Dict(entries) =>
      found.names := found.names + OwnRef(entries);
      var todo := entries.Keys;
      while todo != {}
        invariant todo <= entries.Keys
        invariant forall name :: name in found.names <==>
          name in old(found.names) || name in OwnRef(entries) || exists k <- entries :: k !in todo && Refers(entries[k], name)
        decreases todo
      {
        var k :| k in todo;
        CollectSchemaRefs(entries[k], found);
        todo := todo - {k};
      }
    case List(items) =>
      for i := 0 to |items|
        invariant forall name :: name in found.names <==>
          name in old(found.names) || exists j :: 0 <= j < i && Refers(items[j], name)
      {
        CollectSchemaRefs(items[i], found);
      }
    case Text(_) =>
    case Scalar =>
  }

  // ---- the closure ----

  /** An edge of the reference graph: the first schema exists and refers to the second. */
  predicate Edge(schemas: map<string, Node>, from: string, target: string) {
    from in schemas && Refers(schemas[from], target)
  }

  /** A chain of references that starts inside the kept paths. */
  ghost predicate Chain(paths: Node, schemas: map<string, Node>, chain: seq<string>) {
    && chain != [] && Refers(paths, chain[0])
    && forall i :: 0 < i < |chain| ==> Edge(schemas, chain[i - 1], chain[i])
  }

  ghost predicate Reachable(paths: Node, schemas: map<string, Node>, name: string) {
    exists chain :: Chain(paths, schemas, chain) && chain[|chain| - 1] == name
  }

  lemma ReachableStart(paths: Node, schemas: map<string, Node>, name: string)
    requires Refers(paths, name)
    ensures Reachable(paths, schemas, name)
  {
    assert Chain(paths, schemas, [name]);
  }

  lemma ReachableNext(paths: Node, schemas: map<string, Node>, name: string, next: string)
    requires Reachable(paths, schemas, name) && Edge(schemas, name, next)
    ensures Reachable(paths, schemas, next)
  {
    var chain :| Chain(paths, schemas, chain) && chain[|chain| - 1] == name;
    var longer := chain + [next];
    forall i | 0 < i < |longer| ensures Edge(schemas, longer[i - 1], longer[i]) {
      if i < |chain| {
        assert Edge(schemas, chain[i - 1], chain[i]);
      }
    }
    assert Chain(paths, schemas, longer);
  }

  /** A set that holds the start and follows every edge holds everything reachable. */
  lemma {:induction false} ClosedHoldsChain(paths: Node, schemas: map<string, Node>, names: set<string>, chain: seq<string>)
    requires Chain(paths, schemas, chain)
    requires forall name :: Refers(paths, name) ==> name in names
    requires forall name, next :: name in names && Edge(schemas, name, next) ==> next in names
    ensures chain[|chain| - 1] in names
  {
    if |chain| > 1 {
      var pre := chain[..|chain| - 1];
      assert Chain(paths, schemas, pre);
      ClosedHoldsChain(paths, schemas, names, pre);
      assert Edge(schemas, chain[|chain| - 2], chain[|chain| - 1]);
    }
  }

  /** All names a node refers to: finitely many. */
  ghost function AllRefs(node: Node): (r: set<string>)
    ensures forall name :: name in r <==> Refers(node, name)
  {
    match node
    case Dict(entries) =>
      assert forall k <- entries, name :: Refers(entries[k], name) ==> name in AllRefs(entries[k]);
      OwnRef(entries) + set k, name | k in entries && name in AllRefs(entries[k]) :: name
    case List(items) =>
      assert forall i, name | 0 <= i < |items| :: Refers(items[i], name) ==> name in AllRefs(items[i]);
      set i, name | 0 <= i < |items| && name in AllRefs(items[i]) :: name
    case Text(_) => {}
    case Scalar => {}
  }

  /** All names that occur in references, so that the loop has nowhere left to grow. */
  ghost function AllNames(paths: Node, schemas: map<string, Node>): (all: set<string>)
    ensures forall name :: Refers(paths, name) ==> name in all
    ensures forall name, next :: Edge(schemas, name, next) ==> next in all
  {
    assert forall name, next :: Edge(schemas, name, next) ==> next in AllRefs(schemas[name]);
    AllRefs(paths) + set k, name | k in schemas && name in AllRefs(schemas[k]) :: name
  }

  /** The closure loop of `build_snapshot`: exactly the names reachable from the kept paths. */
  method NeededNames(paths: Node, schemas: map<string, Node>) returns (needed: set<string>)
    ensures forall name :: name in needed <==> Reachable(paths, schemas, name)
  {
    ghost var all := AllNames(paths, schemas);
    var found := new NameSet();
    CollectSchemaRefs(paths, found);
    needed := found.names;
    forall name | name in needed ensures Reachable(paths, schemas, name) {
      ReachableStart(paths, schemas, name);
    }
    while true
      invariant needed <= all
      invariant forall name :: Refers(paths, name) ==> name in needed
      invariant forall name <- needed :: Reachable(paths, schemas, name)
      decreases all - needed
    {
      var pending := PendingNames(schemas, needed);
      forall next | next in pending ensures next in all && Reachable(paths, schemas, next) {
        var name :| name in needed && Edge(schemas, name, next);
        ReachableNext(paths, schemas, name, next);
      }
      var unseen := pending - needed;
      if unseen == {} {
        assert forall next <- pending :: next in unseen || next in needed;
        break;
      }
      ghost var was := needed;
      needed := needed + unseen;
      var x :| x in unseen;
      assert x in all - was && x !in all - needed;
    }
    forall name | Reachable(paths, schemas, name) ensures name in needed {
      var chain :| Chain(paths, schemas, chain) && chain[|chain| - 1] == name;
      ClosedHoldsChain(paths, schemas, needed, chain);
    }
  }

  /** One pass: everything the schemas named so far refer to. */
  method PendingNames(schemas: map<string, Node>, needed: set<string>) returns (pending: set<string>)
    ensures forall next :: next in pending <==> exists name <- needed :: Edge(schemas, name, next)
  {
    var found := new NameSet();
    var todo := needed;
    while todo != {}
      invariant todo <= needed
      invariant forall next :: next in found.names <==> exists name <- needed :: name !in todo && Edge(schemas, name, next)
      decreases todo
    {
      var name :| name in todo;
      CollectSchemaRefs(if name in schemas then schemas[name] else Dict(map[]), found);
      todo := todo - {name};
    }
    return found.names;
  }

  // ---- the exported document ----

  datatype Snapshot = Snapshot(paths: map<string, Node>, schemas: map<string, Node>)

  /** `build_snapshot`: the kept paths are the client's, the kept schemas the reachable ones; so every
      reference in the snapshot that resolved in the source still resolves, and nothing is kept that
      the paths do not lead to. */
  method BuildSnapshot(paths: map<string, Node>, schemas: map<string, Node>) returns (s: Snapshot)
    ensures s.paths.Items <= paths.Items && forall p <- paths :: p in s.paths <==> CLIENT_PREFIX <= p
    ensures s.schemas.Items <= schemas.Items
    ensures forall name <- schemas :: name in s.schemas <==> Reachable(Dict(s.paths), schemas, name)
    ensures forall name <- schemas :: Refers(Dict(s.paths), name) ==> name in s.schemas
    ensures forall from <- s.schemas, name <- schemas :: Refers(s.schemas[from], name) ==> name in s.schemas
  {
    var kept := map p | p in paths && CLIENT_PREFIX <= p :: paths[p];
    var needed := NeededNames(Dict(kept), schemas);
    s := Snapshot(kept, map name | name in needed && name in schemas :: schemas[name]);
    forall name | name in schemas && Refers(Dict(kept), name) ensures name in s.schemas {
      ReachableStart(Dict(kept), schemas, name);
    }
    forall from, name | from in s.schemas && name in schemas && Refers(s.schemas[from], name) ensures name in s.schemas {
      assert Edge(schemas, from, name);
      ReachableNext(Dict(kept), schemas, from, name);
    }
  }

  /** A reference names what follows its last slash. */
  lemma {:induction false} LastSegment(s: string)
    ensures var name := AfterLastSlash(s);
            && '/' !in name && |name| <= |s| && s[|s| - |name|..] == name && (|name| < |s| ==> s[|s| - |name| - 1] == '/')
  {
    if s != "" && s[|s| - 1] != '/' {
      LastSegment(s[..|s| - 1]);
    }
  }

  /** A node refers to a schema when an object in it, at any depth of objects and lists, has a $ref of the
      schema prefix that names it. */
  lemma ReferenceMeans(entries: map<string, Node>, name: string)
    ensures name in OwnRef(entries) <==>
            && "$ref" in entries && entries["$ref"].Text? && "#/components/schemas/" <= entries["$ref"].text
            && name == AfterLastSlash(entries["$ref"].text)
  {
  }
}
