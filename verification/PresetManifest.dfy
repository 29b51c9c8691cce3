/** Validating a preset manifest: which lists of templates are accepted, and what a manifest then is. */
module PresetManifest {
  import opened Wrappers
  import opened PresetCatalog

  /** One entry of the manifest, its text fields already stripped. */
  datatype Item = Item(id: Id, record: Record)

  predicate IdChar(c: char) {
    'A' <= c <= 'Z' || 'a' <= c <= 'z' || '0' <= c <= '9' || c == '_' || c == '-'
  }

  /** tmpl_ and 1 to 120 letters, digits, underscores or hyphens. */
  predicate ValidId(id: Id) {
    "tmpl_" <= id && 1 <= |id| - 5 <= 120 && forall c <- id[5..] :: IdChar(c)
  }

  predicate ItemOk(x: Item) {
    var r := x.record;
    && ValidId(x.id) && Complete(r.name, r.avatar, r.summary, r.tags, r.personaVersion)
    && (r.namePool == [] <==> !Truthy(r.poolVersion))
  }

  // ---- sorting by rank ----

  function Insert(x: Item, s: seq<Item>): (r: seq<Item>)
    ensures |r| == |s| + 1
  {
    if s == [] || x.record.rank < s[0].record.rank then [x] + s else [s[0]] + Insert(x, s[1..])
  }

  /** records.sort(key=rank), which keeps equal ranks in order. */
  function SortByRank(items: seq<Item>): (r: seq<Item>)
    ensures |r| == |items|
  {
    if items == [] then [] else Insert(items[|items| - 1], SortByRank(items[..|items| - 1]))
  }

  function Ranks(s: seq<Item>): seq<int> {
    seq(|s|, i requires 0 <= i < |s| => s[i].record.rank)
  }

  ghost predicate Sorted(s: seq<int>) {
    forall i, j :: 0 <= i < j < |s| ==> s[i] <= s[j]
  }

  lemma RanksConcat(a: seq<Item>, b: seq<Item>)
    ensures Ranks(a + b) == Ranks(a) + Ranks(b)
  {
  }

  lemma {:induction false} InsertRanks(x: Item, s: seq<Item>)
    ensures multiset(Ranks(Insert(x, s))) == multiset(Ranks(s)) + multiset{x.record.rank}
  {
    if s == [] || x.record.rank < s[0].record.rank {
      RanksConcat([x], s);
      assert Ranks([x]) == [x.record.rank];
    } else {
      InsertRanks(x, s[1..]);
      RanksConcat([s[0]], Insert(x, s[1..]));
      RanksConcat([s[0]], s[1..]);
      assert [s[0]] + s[1..] == s;
    }
  }

  /** The list is in rank order, from a rank of at least lo on. */
  ghost predicate SortedFrom(s: seq<Item>, lo: int) {
    s != [] ==> lo <= s[0].record.rank && SortedFrom(s[1..], s[0].record.rank)
  }

  lemma {:induction false} InsertSorted(x: Item, s: seq<Item>, lo: int)
    requires SortedFrom(s, lo) && lo <= x.record.rank
    ensures SortedFrom(Insert(x, s), lo)
  {
    if s == [] || x.record.rank < s[0].record.rank {
      assert ([x] + s)[1..] == s;
    } else {
      InsertSorted(x, s[1..], s[0].record.rank);
      assert ([s[0]] + Insert(x, s[1..]))[1..] == Insert(x, s[1..]);
    }
  }

  lemma {:induction false} SortedFromAt(s: seq<Item>, lo: int, i: nat)
    requires SortedFrom(s, lo) && i < |s|
    ensures lo <= s[i].record.rank && forall j :: i <= j < |s| ==> s[i].record.rank <= s[j].record.rank
    decreases |s|
  {
    if i > 0 {
      SortedFromAt(s[1..], s[0].record.rank, i - 1);
      assert s[1..][i - 1] == s[i] && forall j :: i <= j < |s| ==> s[j] == s[1..][j - 1];
    } else {
      forall j | 0 < j < |s| ensures s[0].record.rank <= s[j].record.rank {
        SortedFromAt(s[1..], s[0].record.rank, j - 1);
        assert s[1..][j - 1] == s[j];
      }
    }
  }

  lemma RanksLast(items: seq<Item>)
    requires items != []
    ensures var (pre, x) := (items[..|items| - 1], items[|items| - 1]);
            multiset(Ranks(items)) == multiset(Ranks(pre)) + multiset{x.record.rank}
  {
    RanksConcat(items[..|items| - 1], [items[|items| - 1]]);
    assert items[..|items| - 1] + [items[|items| - 1]] == items;
    assert Ranks([items[|items| - 1]]) == [items[|items| - 1].record.rank];
  }

  lemma {:induction false} SortPermutes(items: seq<Item>)
    ensures multiset(Ranks(SortByRank(items))) == multiset(Ranks(items))
  {
    if items != [] {
      SortPermutes(items[..|items| - 1]);
      RanksLast(items);
      InsertRanks(items[|items| - 1], SortByRank(items[..|items| - 1]));
    }
  }

  function LeastRank(items: seq<Item>): int {
    if items == [] then 0
    else
      var (r, least) := (items[|items| - 1].record.rank, LeastRank(items[..|items| - 1]));
      if r < least then r else least
  }

  lemma {:induction false} SortedFromLower(s: seq<Item>, lo: int, lower: int)
    requires SortedFrom(s, lo) && lower <= lo
    ensures SortedFrom(s, lower)
  {
  }

  lemma {:induction false} SortSorts(items: seq<Item>)
    ensures SortedFrom(SortByRank(items), LeastRank(items))
  {
    if items != [] {
      var pre := items[..|items| - 1];
      SortSorts(pre);
      SortedFromLower(SortByRank(pre), LeastRank(pre), LeastRank(items));
      InsertSorted(items[|items| - 1], SortByRank(pre), LeastRank(items));
    }
  }

  lemma SortOrders(items: seq<Item>)
    ensures Sorted(Ranks(SortByRank(items)))
  {
    SortSorts(items);
    var s := SortByRank(items);
    forall i, j | 0 <= i < j < |s| ensures Ranks(s)[i] <= Ranks(s)[j] {
      SortedFromAt(s, LeastRank(items), i);
    }
  }

  // ---- ranks 1..N ----

  ghost predicate AllDistinct(s: seq<int>) {
    forall i, j :: 0 <= i < j < |s| ==> s[i] != s[j]
  }

  lemma {:induction false} DistinctCount(s: seq<int>)
    ensures AllDistinct(s) <==> forall k :: multiset(s)[k] <= 1
  {
    if s != [] {
      var (pre, last) := (s[..|s| - 1], s[|s| - 1]);
      DistinctCount(pre);
      assert s == pre + [last];
      assert multiset(s) == multiset(pre) + multiset{last};
      if AllDistinct(s) {
        assert last !in pre;
      } else if AllDistinct(pre) {
        var i :| 0 <= i < |pre| && pre[i] == last;
        assert last in multiset(pre);
        assert multiset(s)[last] > 1;
      }
      assert forall k :: multiset(pre)[k] <= multiset(s)[k];
    }
  }

  predicate Contiguous(s: seq<int>) {
    forall i :: 0 <= i < |s| ==> s[i] == i + 1
  }

  ghost predicate OneToN(s: seq<int>) {
    AllDistinct(s) && forall i :: 0 <= i < |s| ==> 1 <= s[i] <= |s|
  }

  lemma {:induction false} StrictlyAbove(s: seq<int>, i: nat)
    requires Sorted(s) && AllDistinct(s) && (forall j :: 0 <= j < |s| ==> 1 <= s[j]) && i < |s|
    ensures s[i] >= i + 1
  {
    if i > 0 {
      StrictlyAbove(s, i - 1);
    }
  }

  lemma {:induction false} StrictlyBelow(s: seq<int>, i: nat)
    requires Sorted(s) && AllDistinct(s) && (forall j :: 0 <= j < |s| ==> s[j] <= |s|) && i < |s|
    ensures s[i] <= i + 1
    decreases |s| - i
  {
    if i < |s| - 1 {
      StrictlyBelow(s, i + 1);
    }
  }

  /** A list is 1..N in some order exactly when, sorted, it is 1, 2, .., N. */
  lemma SortedContiguous(s: seq<int>, sorted: seq<int>)
    requires Sorted(sorted) && multiset(s) == multiset(sorted)
    ensures OneToN(s) <==> Contiguous(sorted)
  {
    DistinctCount(s);
    DistinctCount(sorted);
    assert |multiset(s)| == |multiset(sorted)|;
    assert forall x :: x in s <==> x in multiset(s);
    assert forall x :: x in sorted <==> x in multiset(sorted);
    if OneToN(s) {
      forall i | 0 <= i < |sorted| ensures sorted[i] == i + 1 {
        assert forall j :: 0 <= j < |sorted| ==> sorted[j] in s;
        StrictlyAbove(sorted, i);
        StrictlyBelow(sorted, i);
      }
    }
    if Contiguous(sorted) {
      forall i | 0 <= i < |s| ensures 1 <= s[i] <= |s| {
        assert s[i] in sorted;
      }
    }
  }

  // ---- the validation ----

  ghost predicate DistinctIds(items: seq<Item>) {
    forall i, j :: 0 <= i < j < |items| ==> items[i].id != items[j].id
  }

  function Ids(items: seq<Item>): set<Id> {
    set i | 0 <= i < |items| :: items[i].id
  }

  lemma {:induction false} IdsCount(items: seq<Item>)
    ensures |Ids(items)| <= |items| && (|Ids(items)| == |items| <==> DistinctIds(items))
  {
    if items != [] {
      var (pre, last) := (items[..|items| - 1], items[|items| - 1]);
      IdsCount(pre);
      assert Ids(items) == Ids(pre) + {last.id};
      if last.id in Ids(pre) {
        var i :| 0 <= i < |pre| && pre[i].id == last.id;
        assert !DistinctIds(items);
      } else {
        assert DistinctIds(items) <==> DistinctIds(pre) by {
          forall i | 0 <= i < |pre| ensures items[i].id != last.id {
            assert pre[i].id in Ids(pre);
          }
        }
      }
    }
  }

  function ById(items: seq<Item>): (m: Manifest)
    ensures m.Keys == Ids(items)
    ensures DistinctIds(items) ==> forall i :: 0 <= i < |items| ==> m[items[i].id] == items[i].record
  {
    if items == [] then map[]
    else
      var pre := items[..|items| - 1];
      assert Ids(items) == Ids(pre) + {items[|items| - 1].id};
      ById(pre)[items[|items| - 1].id := items[|items| - 1].record]
  }

  /** `validate_manifest`: a list of templates is accepted exactly when it is long enough, each template
      is complete, the ids differ and the ranks are 1..N in some order; and then it is a manifest of
      just those templates, as the import requires. */
  method ValidateManifest(items: seq<Item>) returns (r: Result<Manifest>)
    ensures r.Ok? <==> && |items| >= MIN_INITIAL_CANDIDATES && (forall i :: 0 <= i < |items| ==> ItemOk(items[i]))
                       && OneToN(Ranks(items)) && DistinctIds(items)
    ensures r.Ok? ==> r.value == ById(items) && ValidManifest(r.value)
    ensures r.Err? ==> r == Err(InvalidManifest)
  {
    if |items| < MIN_INITIAL_CANDIDATES { return Err(InvalidManifest); }
    for i := 0 to |items|
      invariant forall j :: 0 <= j < i ==> ItemOk(items[j])
    {
      if !ItemOk(items[i]) { return Err(InvalidManifest); }
    }
    var records := SortByRank(items);
    SortPermutes(items);
    SortOrders(items);
    SortedContiguous(Ranks(items), Ranks(records));
    IdsCount(items);
    if !Contiguous(Ranks(records)) { return Err(InvalidManifest); }
    if |Ids(items)| != |items| { return Err(InvalidManifest); }
    AcceptedIsValid(items);
    return Ok(ById(items));
  }

  lemma RecordOf(items: seq<Item>, id: Id) returns (i: nat)
    requires DistinctIds(items) && id in ById(items)
    ensures i < |items| && items[i].id == id && ById(items)[id] == items[i].record
  {
    assert id in Ids(items);
    i :| 0 <= i < |items| && items[i].id == id;
  }

  lemma RanksAt(items: seq<Item>, i: nat, j: nat)
    requires OneToN(Ranks(items)) && i < |items| && j < |items|
    ensures 1 <= items[i].record.rank <= |items| && (items[i].record.rank == items[j].record.rank ==> i == j)
  {
    assert Ranks(items)[i] == items[i].record.rank && Ranks(items)[j] == items[j].record.rank;
  }

  lemma RanksOfManifest(items: seq<Item>, x: Id, y: Id)
    requires OneToN(Ranks(items)) && DistinctIds(items) && x in ById(items) && y in ById(items)
    ensures 1 <= ById(items)[x].rank <= |items| && (ById(items)[x].rank == ById(items)[y].rank ==> x == y)
  {
    var i := RecordOf(items, x);
    var j := RecordOf(items, y);
    RanksAt(items, i, j);
  }

  lemma AcceptedRecord(items: seq<Item>, x: Id)
    requires DistinctIds(items) && x in ById(items) && forall i :: 0 <= i < |items| ==> ItemOk(items[i])
    ensures var r := ById(items)[x];
            Complete(r.name, r.avatar, r.summary, r.tags, r.personaVersion) && (r.namePool == [] <==> !Truthy(r.poolVersion))
  {
    var i := RecordOf(items, x);
    assert ItemOk(items[i]);
  }

  lemma AcceptedIsValid(items: seq<Item>)
    requires |items| >= MIN_INITIAL_CANDIDATES && (forall i :: 0 <= i < |items| ==> ItemOk(items[i]))
    requires OneToN(Ranks(items)) && DistinctIds(items)
    ensures ValidManifest(ById(items))
  {
    var m := ById(items);
    IdsCount(items);
    assert |m| == |m.Keys| == |items|;
    forall x | x in m
      ensures 1 <= m[x].rank <= |m| && Complete(m[x].name, m[x].avatar, m[x].summary, m[x].tags, m[x].personaVersion)
      ensures m[x].namePool == [] <==> !Truthy(m[x].poolVersion)
    {
      RanksOfManifest(items, x, x);
      AcceptedRecord(items, x);
    }
    forall x, y | x in m && y in m && m[x].rank == m[y].rank ensures x == y {
      RanksOfManifest(items, x, y);
    }
  }

  predicate IdLetter(c: char) {
    'a' <= c <= 'z' || 'A' <= c <= 'Z' || '0' <= c <= '9' || c == '_' || c == '-'
  }

  lemma IdMeans(id: Id)
    ensures ValidId(id) <==> 6 <= |id| <= 125 && id[..5] == "tmpl_" && forall i :: 5 <= i < |id| ==> IdLetter(id[i])
  {
    if |id| >= 5 {
      forall i | 5 <= i < |id| ensures id[i] == id[5..][i - 5] && id[i] in id[5..] {
      }
      forall c | c in id[5..] ensures exists i :: 5 <= i < |id| && id[i] == c {
        var j :| 0 <= j < |id| - 5 && id[5..][j] == c;
        assert id[j + 5] == c;
      }
      assert forall c :: IdChar(c) == IdLetter(c);
    }
  }

  /** An accepted template has an id of letters, digits, underscores and hyphens after `tmpl_`, no empty
      field, three tags, and a name pool exactly when it has a version for it. */
  lemma ItemMeans(x: Item)
    ensures ItemOk(x) <==>
            && 6 <= |x.id| <= 125 && x.id[..5] == "tmpl_" && (forall i :: 5 <= i < |x.id| ==> IdLetter(x.id[i]))
            && x.record.name != "" && x.record.avatar != "" && x.record.summary != "" && x.record.personaVersion != ""
            && |x.record.tags| == 3 && (forall tag <- x.record.tags :: tag != "")
            && (x.record.namePool != [] <==> x.record.poolVersion.Some? && x.record.poolVersion.value != "")
  {
    IdMeans(x.id);
  }
}
