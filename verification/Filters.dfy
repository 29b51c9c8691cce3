/** Selecting the rows of a table that satisfy a WHERE clause, in order. */
module Filters {
  function Filter<T>(s: seq<T>, keep: T -> bool): (r: seq<T>)
    ensures forall x <- r :: x in s && keep(x)
    ensures forall x <- s :: keep(x) ==> x in r
  {
    if s == [] then []
    else Filter(s[..|s| - 1], keep) + if keep(s[|s| - 1]) then [s[|s| - 1]] else []
  }

  lemma {:induction false} FilterSame<T>(s: seq<T>, p: T -> bool, q: T -> bool)
    requires forall x <- s :: p(x) == q(x)
    ensures Filter(s, p) == Filter(s, q)
  {
    if s != [] {
      assert s[|s| - 1] in s && forall x <- s[..|s| - 1] :: x in s;
      FilterSame(s[..|s| - 1], p, q);
    }
  }

  lemma {:induction false} FilterTwice<T>(s: seq<T>, p: T -> bool, q: T -> bool)
    ensures Filter(Filter(s, p), q) == Filter(s, x => p(x) && q(x))
  {
    if s != [] {
      FilterTwice(s[..|s| - 1], p, q);
      var pre := Filter(s[..|s| - 1], p);
      if p(s[|s| - 1]) {
        assert (pre + [s[|s| - 1]])[..|pre|] == pre;
      }
      assert pre + [] == pre;
    }
  }

  lemma FilterMerge<T>(s: seq<T>, p: T -> bool, q: T -> bool, both: T -> bool)
    requires forall x <- s :: both(x) == (p(x) && q(x))
    ensures Filter(Filter(s, p), q) == Filter(s, both)
  {
    FilterTwice(s, p, q);
    FilterSame(s, x => p(x) && q(x), both);
  }

  lemma {:induction false} FilterAll<T>(s: seq<T>, p: T -> bool)
    requires forall x <- s :: p(x)
    ensures Filter(s, p) == s
  {
    if s != [] {
      var (pre, last) := (s[..|s| - 1], s[|s| - 1]);
      assert last in s && s == pre + [last];
      FilterAll(pre, p);
    }
  }

  lemma {:induction false} FilterFewer<T>(s: seq<T>, p: T -> bool)
    ensures |Filter(s, p)| <= |s|
  {
    if s != [] {
      FilterFewer(s[..|s| - 1], p);
    }
  }

  lemma FilterAppend<T>(s: seq<T>, x: T, keep: T -> bool)
    ensures Filter(s + [x], keep) == Filter(s, keep) + if keep(x) then [x] else []
  {
    assert (s + [x])[..|s|] == s;
  }

  /** Selecting keeps the rows in their order: the result lists the positions that satisfy the clause, all
      of them, one after the other. */
  lemma {:induction false} FilterPositions<T>(s: seq<T>, keep: T -> bool) returns (at: seq<nat>)
    ensures |at| == |Filter(s, keep)|
    ensures forall j :: 0 <= j < |at| ==> at[j] < |s| && keep(s[at[j]]) && Filter(s, keep)[j] == s[at[j]]
    ensures forall i, j :: 0 <= i < j < |at| ==> at[i] < at[j]
    ensures forall i: nat :: i < |s| && keep(s[i]) ==> i in at
  {
    if s == [] {
      at := [];
    } else {
      var pre := FilterPositions(s[..|s| - 1], keep);
      at := pre + if keep(s[|s| - 1]) then [|s| - 1] else [];
      forall i: nat | i < |s| && keep(s[i]) ensures i in at {
        assert i < |s| - 1 ==> s[..|s| - 1][i] == s[i] && i in pre;
        assert i == |s| - 1 ==> at[|pre|] == i;
      }
    }
  }
}
