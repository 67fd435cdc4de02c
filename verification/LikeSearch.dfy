/**
 The search box of the ticket list: user text is escaped and wrapped in '%', and PostgreSQL
 matches it with LIKE. The matcher below is LIKE with the default backslash escape
 (PostgreSQL documentation, section 9.7.1).
 */
module LikeSearch {
  import opened Wrappers
  import opened Text

  /** t LIKE p. A backslash makes the next pattern character literal. */
  predicate Like(t: string, p: string)
    decreases |p|, |t|
  {
    if p == "" then t == ""
    else if p[0] == '%' then Like(t, p[1..]) || (t != "" && Like(t[1..], p))
    else if p[0] == '_' then t != "" && Like(t[1..], p[1..])
    else if p[0] == '\\' then |p| > 1 && t != "" && t[0] == p[1] && Like(t[1..], p[2..])
    else t != "" && t[0] == p[0] && Like(t[1..], p[1..])
  }

  /** PostgreSQL refuses a pattern that ends in the middle of an escape. */
  predicate EndsInEscape(p: string) {
    if p == "" then false
    else if p[0] == '\\' then |p| == 1 || EndsInEscape(p[2..])
    else EndsInEscape(p[1..])
  }

  predicate IsMeta(c: char) { c == '\\' || c == '%' || c == '_' }

  function EscapeChar(c: char): string {
    if IsMeta(c) then ['\\', c] else [c]
  }

  /** strings.NewReplacer makes one pass: a backslash it has written is not escaped again. */
  function EscapeLike(s: string): string {
    if s == "" then "" else EscapeChar(s[0]) + EscapeLike(s[1..])
  }

  function ContainsPattern(s: string): string { "%" + EscapeLike(s) + "%" }

  /** The pattern that scopeSearchParam builds for the number column; None means no filter. */
  function NumberPattern(raw: string): Option<string> {
    var trimmed := TrimSpace(raw);
    if trimmed == "" then None else Some(ContainsPattern(trimmed))
  }

  ghost predicate IsSubstring(s: string, t: string) {
    exists i :: 0 <= i <= |t| && s <= t[i..]
  }

  /** An escaped character matches itself and nothing else. */
  lemma EscapedCharIsLiteral(t: string, c: char, q: string)
    ensures Like(t, EscapeChar(c) + q) <==> t != "" && t[0] == c && Like(t[1..], q)
  {
    var p := EscapeChar(c) + q;
    assert p[|EscapeChar(c)|..] == q;
  }

  lemma EscapeLikeHead(s: string, p: string)
    requires s != ""
    ensures EscapeLike(s) + p == EscapeChar(s[0]) + (EscapeLike(s[1..]) + p)
  {
  }

  /** An escaped prefix matches itself and nothing else, whatever pattern follows. */
  lemma {:induction false} EscapedIsLiteral(t: string, s: string, p: string)
    ensures Like(t, EscapeLike(s) + p) <==> s <= t && Like(t[|s|..], p)
  {
    if s == "" {
      assert EscapeLike(s) + p == p && t[|s|..] == t;
    } else {
      EscapeLikeHead(s, p);
      EscapedCharIsLiteral(t, s[0], EscapeLike(s[1..]) + p);
      if t != "" && t[0] == s[0] {
        hide Like, EscapeLike;
        EscapedIsLiteral(t[1..], s[1..], p);
        assert s == [s[0]] + s[1..] && t == [t[0]] + t[1..];
        if s <= t { assert t[1..][|s[1..]|..] == t[|s|..]; }
      }
    }
  }

  /** '%' skips any number of characters. */
  lemma {:induction false} PercentSkips(t: string, p: string)
    ensures Like(t, ['%'] + p) <==> exists i :: 0 <= i <= |t| && Like(t[i..], p)
    decreases |t|
  {
    var q := ['%'] + p;
    assert q[0] == '%' && q[1..] == p && t[0..] == t;
    if t == "" {
    } else {
      PercentSkips(t[1..], p);
      forall i | 0 <= i <= |t[1..]| ensures t[1..][i..] == t[i + 1..] { }
      if Like(t[1..], q) {
        var i :| 0 <= i <= |t[1..]| && Like(t[1..][i..], p);
        assert Like(t[i + 1..], p);
      }
      if i :| 0 < i <= |t| && Like(t[i..], p) {
        assert Like(t[1..][i - 1..], p);
      }
    }
  }

  lemma {:induction false} PercentMatchesAll(t: string)
    ensures Like(t, "%")
  {
    assert t[|t|..] == "" && Like("", "");
    PercentSkips(t, "");
    assert ['%'] + "" == "%";
  }

  /**
   Escaping preserves meaning: for every search text, metacharacters included, the pattern
   matches exactly the strings that contain the text.
   */
  lemma {:induction false} LikeFindsSubstring(s: string, t: string)
    ensures Like(t, ContainsPattern(s)) <==> IsSubstring(s, t)
  {
    assert ContainsPattern(s) == ['%'] + (EscapeLike(s) + "%");
    PercentSkips(t, EscapeLike(s) + "%");
    forall i | 0 <= i <= |t|
      ensures Like(t[i..], EscapeLike(s) + "%") <==> s <= t[i..]
    {
      EscapedIsLiteral(t[i..], s, "%");
      if s <= t[i..] { PercentMatchesAll(t[i..][|s|..]); }
    }
  }

  lemma EscapedCharIsWhole(c: char, q: string)
    ensures EndsInEscape(EscapeChar(c) + q) <==> EndsInEscape(q)
  {
    var p := EscapeChar(c) + q;
    assert p[|EscapeChar(c)|..] == q;
  }

  lemma {:induction false} EscapedNeverDangles(s: string, p: string)
    ensures EndsInEscape(EscapeLike(s) + p) <==> EndsInEscape(p)
  {
    if s == "" {
      assert EscapeLike(s) + p == p;
    } else {
      EscapeLikeHead(s, p);
      EscapedCharIsWhole(s[0], EscapeLike(s[1..]) + p);
      EscapedNeverDangles(s[1..], p);
    }
  }

  /**
   The number filter: blank input filters nothing, any other input keeps exactly the numbers
   that contain the trimmed text, and the database never refuses the pattern.
   */
  lemma NumberFilterMeaning(raw: string, number: string)
    ensures NumberPattern(raw).None? <==> TrimSpace(raw) == ""
    ensures NumberPattern(raw).Some? ==>
              && !EndsInEscape(NumberPattern(raw).value)
              && (Like(number, NumberPattern(raw).value) <==> IsSubstring(TrimSpace(raw), number))
  {
    if NumberPattern(raw).Some? {
      var s := TrimSpace(raw);
      LikeFindsSubstring(s, number);
      EscapedNeverDangles(s, "%");
      var p := ContainsPattern(s);
      assert p == ['%'] + (EscapeLike(s) + "%") && p[1..] == EscapeLike(s) + "%";
    }
  }
}
