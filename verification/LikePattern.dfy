/** The escaped LIKE pattern that a prefix query sends to the database. */
module LikePattern {

  /** `str.replace` for a one-character needle. */
  function Replace(s: string, c: char, w: string): string {
    if s == [] then [] else (if s[0] == c then w else [s[0]]) + Replace(s[1..], c, w)
  }

  /** What the query builds: escape the escape character first, then the two wildcards, then allow any tail. */
  function PrefixPattern(prefix: string): string {
    Replace(Replace(Replace(prefix, '!', "!!"), '%', "!%"), '_', "!_") + "%"
  }

  /** SQL `s LIKE p ESCAPE '!'`, case sensitive. A pattern that ends in a lone escape matches nothing. */
  predicate Like(p: string, s: string)
    decreases |p|
  {
    if p == [] then s == []
    else if p[0] == '!' then |p| >= 2 && s != [] && s[0] == p[1] && Like(p[2..], s[1..])
    else if p[0] == '%' then exists i :: 0 <= i <= |s| && Like(p[1..], s[i..])
    else if p[0] == '_' then s != [] && Like(p[1..], s[1..])
    else s != [] && s[0] == p[0] && Like(p[1..], s[1..])
  }

  function EscapeChar(c: char): string {
    if c == '!' || c == '%' || c == '_' then ['!', c] else [c]
  }

  function Escape(s: string): string {
    if s == [] then [] else EscapeChar(s[0]) + Escape(s[1..])
  }

  lemma {:induction false} ReplaceAppend(a: string, b: string, c: char, w: string)
    ensures Replace(a + b, c, w) == Replace(a, c, w) + Replace(b, c, w)
  {
    if a == [] {
      assert a + b == b;
    } else {
      assert (a + b)[1..] == a[1..] + b;
      ReplaceAppend(a[1..], b, c, w);
    }
  }

  lemma ReplaceShort(a: string, c: char, w: string)
    requires |a| <= 2
    ensures |a| == 1 ==> Replace(a, c, w) == if a[0] == c then w else a
    ensures |a| == 2 ==> Replace(a, c, w) == (if a[0] == c then w else [a[0]]) + (if a[1] == c then w else [a[1]])
  {
  }

  /** The three replacements in sequence escape each character once. */
  lemma {:induction false} ReplacementsEscape(s: string)
    ensures Replace(Replace(Replace(s, '!', "!!"), '%', "!%"), '_', "!_") == Escape(s)
  {
    if s != [] {
      var c := [s[0]];
      assert s == c + s[1..];
      var r1 := Replace(c, '!', "!!");
      ReplaceAppend(c, s[1..], '!', "!!");
      ReplaceShort(c, '!', "!!");
      var r2 := Replace(r1, '%', "!%");
      ReplaceAppend(r1, Replace(s[1..], '!', "!!"), '%', "!%");
      ReplaceShort(r1, '%', "!%");
      ReplaceAppend(r2, Replace(Replace(s[1..], '!', "!!"), '%', "!%"), '_', "!_");
      ReplaceShort(r2, '_', "!_");
      ReplacementsEscape(s[1..]);
    }
  }

  lemma EscapedCharMatchesItself(c: char, tail: string, s: string)
    ensures Like(EscapeChar(c) + tail, s) <==> s != [] && s[0] == c && Like(tail, s[1..])
  {
  }

  /** An escaped literal consumes exactly itself. */
  lemma {:induction false} EscapeMatchesLiterally(literal: string, rest: string, s: string)
    ensures Like(Escape(literal) + rest, s) <==> literal <= s && Like(rest, s[|literal|..])
  {
    if literal == [] {
      assert Escape(literal) + rest == rest && s[0..] == s;
    } else {
      var tail := Escape(literal[1..]) + rest;
      assert Escape(literal) + rest == EscapeChar(literal[0]) + tail;
      EscapedCharMatchesItself(literal[0], tail, s);
      if s != [] {
        EscapeMatchesLiterally(literal[1..], rest, s[1..]);
        assert literal <= s <==> literal[0] == s[0] && literal[1..] <= s[1..];
        if literal <= s { assert s[1..][|literal[1..]|..] == s[|literal|..]; }
      }
    }
  }

  /** The pattern selects exactly the keys that start with the literal prefix, whatever characters it holds. */
  lemma PrefixPatternIsPrefix(prefix: string, key: string)
    ensures Like(PrefixPattern(prefix), key) <==> prefix <= key
  {
    ReplacementsEscape(prefix);
    EscapeMatchesLiterally(prefix, "%", key);
    if prefix <= key {
      var rest := key[|prefix|..];
      assert "%"[1..] == [] && rest[|rest|..] == [];
      assert Like("%"[1..], rest[|rest|..]);
    }
  }
}
