/** Translating `?` placeholders to `%s`: the index loop with its lookahead, and what it preserves. */
module Placeholders {
  function Flipped(c: char, inString: bool): bool { if c == '\'' then !inString else inString }

  function Translated(c: char, inString: bool): string {
    if c == '%' then "%%" else if c == '?' && !inString then "%s" else [c]
  }

  /** Plain quote toggling, one character at a time. */
  function Translate(sql: string, inString: bool): string {
    if sql == "" then "" else Translated(sql[0], inString) + Translate(sql[1..], Flipped(sql[0], inString))
  }

  /** The first i characters are translated, and the rest is still to come. */
  ghost predicate Midway(sql: string, i: nat, inString: bool, out: string) {
    i <= |sql| && out + Translate(sql[i..], inString) == Translate(sql, false)
  }

  lemma Advance(sql: string, i: nat, inString: bool, out: string)
    requires Midway(sql, i, inString, out) && i < |sql|
    ensures Midway(sql, i + 1, Flipped(sql[i], inString), out + Translated(sql[i], inString))
  {
    assert sql[i..][1..] == sql[i + 1..];
    var (one, rest) := (Translated(sql[i], inString), Translate(sql[i + 1..], Flipped(sql[i], inString)));
    assert Translate(sql[i..], inString) == one + rest;
    assert out + (one + rest) == out + one + rest;
  }

  /** `translate_placeholders`: the doubled-quote lookahead gives what plain toggling gives. */
  method TranslatePlaceholders(sql: string) returns (out: string)
    ensures out == Translate(sql, false)
  {
    out := "";
    var inString := false;
    var i := 0;
    assert sql[0..] == sql;
    while i < |sql|
      invariant Midway(sql, i, inString, out)
    {
      var c := sql[i];
      Advance(sql, i, inString, out);
      if c == '\'' {
        if inString && i + 1 < |sql| && sql[i + 1] == '\'' {
          Advance(sql, i + 1, false, out + "'");
          assert out + "'" + "'" == out + "''";
          out := out + "''";
          i := i + 2;
          continue;
        }
        inString := !inString;
        out := out + [c];
      } else if c == '%' {
        out := out + "%%";
      } else if c == '?' && !inString {
        out := out + "%s";
      } else {
        out := out + [c];
      }
      i := i + 1;
    }
    assert out + "" == out;
  }

  /** How the driver reads the translated text: `%%` is a percent sign, `%s` a placeholder. */
  function Unescape(s: string): string {
    if "%%" <= s then "%" + Unescape(s[2..])
    else if "%s" <= s then "?" + Unescape(s[2..])
    else if s == "" then "" else [s[0]] + Unescape(s[1..])
  }

  function Placeholders(s: string): nat {
    if "%%" <= s then Placeholders(s[2..])
    else if "%s" <= s then 1 + Placeholders(s[2..])
    else if s == "" then 0 else Placeholders(s[1..])
  }

  lemma ReadOne(c: char, inString: bool, rest: string)
    ensures Unescape(Translated(c, inString) + rest) == [c] + Unescape(rest)
    ensures Placeholders(Translated(c, inString) + rest) == (if c == '?' && !inString then 1 else 0) + Placeholders(rest)
  {
    var s := Translated(c, inString) + rest;
    if c == '%' {
      assert s[2..] == rest;
    } else if c == '?' && !inString {
      assert s[2..] == rest && s[0] == '%' && s[1] == 's';
    } else {
      assert s[0] == c && s[1..] == rest;
    }
  }

  /** Reading the translation back gives the statement itself, for every statement. */
  lemma {:induction false} UnescapeTranslate(sql: string, inString: bool)
    ensures Unescape(Translate(sql, inString)) == sql
  {
    if sql != "" {
      UnescapeTranslate(sql[1..], Flipped(sql[0], inString));
      ReadOne(sql[0], inString, Translate(sql[1..], Flipped(sql[0], inString)));
    }
  }

  function Quotes(s: string): nat {
    if s == "" then 0 else Quotes(s[..|s| - 1]) + if s[|s| - 1] == '\'' then 1 else 0
  }

  /** The question marks with an even number of quotes before them. */
  function Marks(sql: string): set<nat> {
    set i: nat | i < |sql| && sql[i] == '?' && Quotes(sql[..i]) % 2 == 0
  }

  /** Whether the scan is inside a string after reading sql. */
  function StateAfter(sql: string, inString: bool): bool {
    if sql == "" then inString else StateAfter(sql[1..], Flipped(sql[0], inString))
  }

  lemma {:induction false} StateIsParity(sql: string, inString: bool)
    ensures StateAfter(sql, inString) == (inString != (Quotes(sql) % 2 == 1))
  {
    if sql != "" {
      StateIsParity(sql[1..], Flipped(sql[0], inString));
      QuotesFirst(sql);
    }
  }

  lemma {:induction false} TranslateAppend(sql: string, c: char, inString: bool)
    ensures Translate(sql + [c], inString) == Translate(sql, inString) + Translated(c, StateAfter(sql, inString))
  {
    var one := Translated(c, StateAfter(sql, inString));
    if sql == "" {
      assert sql + [c] == [c] && [c][1..] == "";
      assert one + "" == one && "" + one == one;
    } else {
      assert (sql + [c])[1..] == sql[1..] + [c];
      var (first, next) := (Translated(sql[0], inString), Flipped(sql[0], inString));
      TranslateAppend(sql[1..], c, next);
      assert first + (Translate(sql[1..], next) + one) == (first + Translate(sql[1..], next)) + one;
    }
  }

  lemma {:induction false} QuotesFirst(s: string)
    requires s != ""
    ensures Quotes(s) == (if s[0] == '\'' then 1 else 0) + Quotes(s[1..])
  {
    if |s| > 1 {
      QuotesFirst(s[..|s| - 1]);
      assert s[1..][..|s| - 2] == s[..|s| - 1][1..];
    }
  }

  lemma {:induction false} PlaceholdersAppend(sql: string, inString: bool, c: char, d: bool)
    ensures Placeholders(Translate(sql, inString) + Translated(c, d))
         == Placeholders(Translate(sql, inString)) + if c == '?' && !d then 1 else 0
  {
    if sql == "" {
      ReadOne(c, d, "");
      assert "" + Translated(c, d) == Translated(c, d) + "";
    } else {
      var (first, rest) := (Translated(sql[0], inString), Translate(sql[1..], Flipped(sql[0], inString)));
      PlaceholdersAppend(sql[1..], Flipped(sql[0], inString), c, d);
      assert first + rest + Translated(c, d) == first + (rest + Translated(c, d));
      ReadOne(sql[0], inString, rest);
      ReadOne(sql[0], inString, rest + Translated(c, d));
    }
  }

  /** The translation holds exactly one placeholder for each question mark outside quotes. */
  lemma {:induction false} OnePlaceholderPerMark(sql: string)
    ensures Placeholders(Translate(sql, false)) == |Marks(sql)|
  {
    if sql == "" {
      assert Marks(sql) == {};
    } else {
      var (pre, c) := (sql[..|sql| - 1], sql[|sql| - 1]);
      OnePlaceholderPerMark(pre);
      assert pre + [c] == sql;
      TranslateAppend(pre, c, false);
      StateIsParity(pre, false);
      PlaceholdersAppend(pre, false, c, Quotes(pre) % 2 == 1);
      forall i: nat ensures i in Marks(sql) <==> i in Marks(pre) || (i == |pre| && c == '?' && Quotes(pre) % 2 == 0) {
        if i < |pre| {
          assert sql[..i] == pre[..i];
        } else if i == |pre| {
          assert sql[..i] == pre;
        }
      }
      assert Marks(sql) == Marks(pre) + if c == '?' && Quotes(pre) % 2 == 0 then {|pre|} else {};
    }
  }
}
