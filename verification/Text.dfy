/** The string cleaning every identifier and idempotency key goes through, and the derived keys. */
module Text {
  /** The characters Python's `str.strip` removes. */
  predicate IsSpace(c: char) {
    || '\t' <= c <= '\r' || '\U{1c}' <= c <= ' ' || c == '\U{85}' || c == '\U{a0}'
    || c == '\U{1680}' || '\U{2000}' <= c <= '\U{200a}' || c == '\U{2028}' || c == '\U{2029}'
    || c == '\U{202f}' || c == '\U{205f}' || c == '\U{3000}'
  }

  function TrimLeft(s: string): string {
    if s != "" && IsSpace(s[0]) then TrimLeft(s[1..]) else s
  }

  function TrimRight(s: string): string {
    if s != "" && IsSpace(s[|s| - 1]) then TrimRight(s[..|s| - 1]) else s
  }

  /** `_clean_text`: the stripped text; the empty result stands for `None`. */
  function CleanText(s: string): string {
    TrimRight(TrimLeft(s))
  }

  /** An idempotency key, read by the family it belongs to: the keys the billing code derives from a
      reservation key, a charge key or a relationship id, and every other key. */
  datatype Key =
    | Plain(text: string)
    | ReleaseOf(text: string)
    | UsageOf(text: string)
    | RewardOf(text: string)

  /** The text stored in the idempotency_key column. */
  function Print(k: Key): string {
    match k
    case Plain(text) => text
    case ReleaseOf(text) => "release-" + text
    case UsageOf(text) => "usage-charge-" + text
    case RewardOf(text) => "referral-reward-" + text
  }

  function Parse(s: string): Key {
    if "release-" <= s then ReleaseOf(s[8..])
    else if "usage-charge-" <= s then UsageOf(s[13..])
    else if "referral-reward-" <= s then RewardOf(s[16..])
    else Plain(s)
  }

  /** The key a caller's text stands for; `Plain("")` is no key at all. */
  function KeyOf(raw: string): Key {
    Parse(CleanText(raw))
  }

  /** Reading a key loses nothing, so two texts are the same key exactly when they are equal; and the
      derived families are disjoint, each key read back as what it was derived from. */
  lemma ParsePrint(s: string, k: Key)
    ensures Print(Parse(s)) == s
    ensures !k.Plain? ==> Parse(Print(k)) == k
  {
    if "release-" <= s { assert "release-" + s[8..] == s; }
    if "usage-charge-" <= s { assert "usage-charge-" + s[13..] == s; }
    if "referral-reward-" <= s { assert "referral-reward-" + s[16..] == s; }
    match k
    case Plain(_) =>
    case ReleaseOf(text) =>
      assert Print(k)[8..] == text;
    case UsageOf(text) =>
      assert Print(k)[13..] == text;
      assert Print(k)[0] == 'u';
    case RewardOf(text) =>
      assert Print(k)[16..] == text;
      assert Print(k)[2] == 'f' && Print(k)[0] == 'r';
  }

  lemma TrimRightEnds(s: string)
    ensures TrimRight(s) != "" ==> !IsSpace(TrimRight(s)[|TrimRight(s)| - 1])
    ensures s != "" && !IsSpace(s[|s| - 1]) ==> TrimRight(s) == s
  {
  }

  lemma CleanPrefixed(prefix: string, key: string)
    requires prefix != "" && !IsSpace(prefix[0]) && !IsSpace(prefix[|prefix| - 1])
    ensures CleanText(prefix + CleanText(key)) == prefix + CleanText(key)
  {
    var s := prefix + CleanText(key);
    TrimRightEnds(TrimLeft(key));
    assert s[0] == prefix[0] && TrimLeft(s) == s;
    assert s[|s| - 1] == if CleanText(key) == "" then prefix[|prefix| - 1] else CleanText(key)[|CleanText(key)| - 1];
    TrimRightEnds(s);
  }

  /** A key derived from a cleaned key survives the cleaning it goes through again. */
  lemma CleanDerived(key: string)
    ensures KeyOf(Print(ReleaseOf(CleanText(key)))) == ReleaseOf(CleanText(key))
    ensures KeyOf(Print(UsageOf(CleanText(key)))) == UsageOf(CleanText(key))
  {
    CleanPrefixed("release-", key);
    CleanPrefixed("usage-charge-", key);
    ParsePrint("", ReleaseOf(CleanText(key)));
    ParsePrint("", UsageOf(CleanText(key)));
  }

  // ---- splitting at a separator ----

  function IndexOf(s: string, c: char): (i: nat)
    ensures i <= |s| && c !in s[..i] && (i < |s| ==> s[i] == c)
  {
    if s == "" || s[0] == c then 0
    else
      assert forall j :: 0 < j < |s| ==> s[j] == s[1..][j - 1];
      1 + IndexOf(s[1..], c)
  }

  lemma {:induction false} IndexOfFirst(a: string, c: char, b: string)
    requires c !in a
    ensures IndexOf(a + [c] + b, c) == |a| && IndexOf(a, c) == |a|
  {
    if a != "" {
      assert (a + [c] + b)[1..] == a[1..] + [c] + b;
      IndexOfFirst(a[1..], c, b);
    }
  }

  lemma SameSplit(a: string, b: string, x: string, y: string)
    requires ':' !in a && ':' !in b && a + ":" + x == b + ":" + y
    ensures a == b && x == y
  {
    IndexOfFirst(a, ':', x);
    IndexOfFirst(b, ':', y);
    assert IndexOf(a + ":" + x, ':') == |a| && IndexOf(b + ":" + y, ':') == |b|;
    assert (a + ":" + x)[..|a|] == a && (b + ":" + y)[..|b|] == b;
    assert (a + ":" + x)[|a| + 1..] == x && (b + ":" + y)[|b| + 1..] == y;
  }
}
