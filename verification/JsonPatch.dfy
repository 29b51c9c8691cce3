/** JSON Merge Patch: the key-by-key loop of the database function, and section 2 of RFC 7396. */
module JsonPatch {
  import opened Wrappers

  datatype Json =
    | Null
    | Bool(b: bool)
    | Number(text: string)
    | String(text: string)
    | Array(items: seq<Json>)
    | Object(members: map<string, Json>)

  /** A target's members; what is not an object counts as an empty one. */
  function MembersOf(target: Option<Json>): map<string, Json> {
    if target.Some? && target.value.Object? then target.value.members else map[]
  }

  function Get(m: map<string, Json>, k: string): Option<Json> {
    if k in m then Some(m[k]) else None
  }

  /** MergePatch of section 2 of RFC 7396, all members at once. */
  function MergePatch(target: Option<Json>, patch: Json): Json
    decreases patch
  {
    if !patch.Object? then patch
    else
      var (before, changes) := (MembersOf(target), patch.members);
      Object(map k | k in before.Keys + changes.Keys && (k in changes ==> changes[k] != Null) ::
        if k in changes then MergePatch(Get(before, k), changes[k]) else before[k])
  }

  /** The members after the keys in `done` have been patched. */
  ghost predicate Patched(before: map<string, Json>, patch: map<string, Json>, done: set<string>, after: map<string, Json>) {
    && (forall k :: k in after <==> if k in done && k in patch then patch[k] != Null else k in before)
    && (forall k <- after :: after[k] == if k in done && k in patch then MergePatch(Get(before, k), patch[k]) else before[k])
  }

  /** The loop of `json_patch`, taking the members of the patch in any order; a missing argument is SQL
      NULL. */
  method ApplyPatch(target: Option<Json>, patch: Option<Json>) returns (result: Option<Json>)
    ensures result == if patch.None? then None else Some(MergePatch(target, patch.value))
    decreases if patch.Some? then patch.value else Null
  {
    if patch.None? || !patch.value.Object? { return patch; }
    var before := MembersOf(target);
    var members := before;
    var changes := patch.value.members;
    var todo := changes.Keys;
    while todo != {}
      invariant todo <= changes.Keys
      invariant Patched(before, changes, changes.Keys - todo, members)
      decreases todo
    {
      var k :| k in todo;
      var v := changes[k];
      if v == Null {
        members := map x | x in members && x != k :: members[x];
      } else {
        var inner := ApplyPatch(Get(members, k), Some(v));
        members := members[k := inner.value];
      }
      todo := todo - {k};
    }
    assert members == MergePatch(target, patch.value).members;
    return Some(Object(members));
  }

  // ---- what merging means ----

  /** Applying a patch a second time changes nothing. */
  lemma {:induction false} MergeIdempotent(target: Option<Json>, patch: Json)
    ensures MergePatch(Some(MergePatch(target, patch)), patch) == MergePatch(target, patch)
    decreases patch
  {
    if patch.Object? {
      var once := MergePatch(target, patch).members;
      var twice := MergePatch(Some(MergePatch(target, patch)), patch).members;
      forall k | k in once ensures k in twice && twice[k] == once[k] {
        if k in patch.members {
          MergeIdempotent(Get(MembersOf(target), k), patch.members[k]);
        }
      }
      assert once == twice;
    }
  }

  /** A member the patch does not mention is kept as it is, one set to null is gone, and any other is
      there, merged. */
  lemma MergeMembers(target: Option<Json>, patch: Json, k: string)
    requires patch.Object?
    ensures MergePatch(target, patch).Object?
    ensures var (before, after) := (Get(MembersOf(target), k), Get(MergePatch(target, patch).members, k));
            after == if k !in patch.members then before
                     else if patch.members[k] == Null then None else Some(MergePatch(before, patch.members[k]))
  {
  }

  // ---- which documents patches can reach ----

  /** No member of an object in b is null unless it is already there in a. */
  predicate NoNewNulls(a: Option<Json>, b: Json)
    decreases b
  {
    b.Object? ==>
      forall k <- b.members ::
        Get(MembersOf(a), k) == Some(b.members[k])
        || (b.members[k] != Null && NoNewNulls(Get(MembersOf(a), k), b.members[k]))
  }

  /** The patch that turns a into b. */
  function Diff(a: Option<Json>, b: Json): Json
    decreases b
  {
    if !b.Object? then b
    else
      var before := MembersOf(a);
      Object(map k | k in before.Keys + b.members.Keys && Get(before, k) != Get(b.members, k) ::
        if k in b.members then Diff(Get(before, k), b.members[k]) else Null)
  }

  lemma {:induction false} DiffReaches(a: Option<Json>, b: Json)
    requires NoNewNulls(a, b)
    ensures MergePatch(a, Diff(a, b)) == b && (b != Null ==> Diff(a, b) != Null)
    decreases b
  {
    if b.Object? {
      var after := MergePatch(a, Diff(a, b)).members;
      forall k ensures Get(after, k) == Get(b.members, k) {
        MergeMembers(a, Diff(a, b), k);
        if k in b.members && Get(MembersOf(a), k) != Some(b.members[k]) {
          DiffReaches(Get(MembersOf(a), k), b.members[k]);
        }
      }
      assert forall k :: k in after <==> k in b.members by {
        forall k ensures k in after <==> k in b.members {
          assert Get(after, k) == Get(b.members, k);
        }
      }
      forall k | k in after ensures after[k] == b.members[k] {
        assert Get(after, k) == Get(b.members, k);
      }
      assert after == b.members;
    }
  }

  lemma {:induction false} ReachedHasNoNewNulls(a: Option<Json>, p: Json)
    ensures NoNewNulls(a, MergePatch(a, p))
    decreases p
  {
    if p.Object? {
      var b := MergePatch(a, p);
      forall k | k in b.members
        ensures Get(MembersOf(a), k) == Some(b.members[k])
             || (b.members[k] != Null && NoNewNulls(Get(MembersOf(a), k), b.members[k]))
      {
        MergeMembers(a, p, k);
        if k in p.members {
          ReachedHasNoNewNulls(Get(MembersOf(a), k), p.members[k]);
        }
      }
    }
  }

  /** Some patch takes a to b exactly when b's objects hold no null member that a does not hold already. */
  lemma PatchReaches(a: Option<Json>, b: Json)
    ensures (exists p :: MergePatch(a, p) == b) <==> NoNewNulls(a, b)
  {
    if NoNewNulls(a, b) {
      DiffReaches(a, b);
    }
    forall p | MergePatch(a, p) == b ensures NoNewNulls(a, b) {
      ReachedHasNoNewNulls(a, p);
    }
  }

  /** No object inside the document, at any depth of objects, holds a null member. */
  predicate NoNulls(b: Json) {
    b.Object? ==> forall k <- b.members :: b.members[k] != Null && NoNulls(b.members[k])
  }

  lemma {:induction false} NoNullsAreNew(a: Option<Json>, b: Json)
    requires NoNulls(b)
    ensures NoNewNulls(a, b)
    decreases b
  {
    if b.Object? {
      forall k | k in b.members ensures b.members[k] != Null && NoNewNulls(Get(MembersOf(a), k), b.members[k]) {
        NoNullsAreNew(Get(MembersOf(a), k), b.members[k]);
      }
    }
  }

  /** So a document whose objects hold no nulls can be reached from every document, by the patch that
      says how they differ. */
  lemma NoNullsReached(a: Option<Json>, b: Json)
    requires NoNulls(b)
    ensures exists p :: MergePatch(a, p) == b
    ensures MergePatch(a, Diff(a, b)) == b
  {
    NoNullsAreNew(a, b);
    DiffReaches(a, b);
  }
}
