/**
The path filter of the workflow check: a `paths` entry is compiled to a regular expression, segment by segment, and
that expression accepts the paths the segment glob selects. As in the regex library, a dot stands for any character but
a newline, and the closing anchor also holds just before a newline that ends the string.
*/
module PathGlob {
  import opened Ordering
  import opened Text

  // ----- Segments -----

  /** Position of the first slash, or the length. */
  function FirstSlash(s: string): (k: nat)
    ensures k <= |s|
  {
    if s == [] || s[0] == '/' then 0 else 1 + FirstSlash(s[1..])
  }

  lemma {:induction false} FirstSlashFound(s: string)
    ensures var k := FirstSlash(s); '/' !in s[..k] && (k < |s| ==> s[k] == '/')
  {
    if s != [] && s[0] != '/' {
      FirstSlashFound(s[1..]);
      assert s[..FirstSlash(s)] == [s[0]] + s[1..][..FirstSlash(s) - 1];
    }
  }

  lemma {:induction false} FirstSlashIs(s: string, i: nat)
    requires i <= |s| && '/' !in s[..i] && (i < |s| ==> s[i] == '/')
    ensures FirstSlash(s) == i
  {
    if i > 0 {
      assert s[0] == s[..i][0];
      assert forall j :: 0 <= j < i - 1 ==> s[1..][j] == s[..i][j + 1];
      FirstSlashIs(s[1..], i - 1);
    }
  }

  function Split(s: string): (r: seq<string>)
    ensures |r| >= 1
    decreases |s|
  {
    var k := FirstSlash(s);
    if k == |s| then [s] else [s[..k]] + Split(s[k + 1..])
  }

  lemma {:induction false} SegmentsHaveNoSlash(s: string)
    ensures forall i :: 0 <= i < |Split(s)| ==> '/' !in Split(s)[i]
    decreases |s|
  {
    FirstSlashFound(s);
    var k := FirstSlash(s);
    if k < |s| {
      SegmentsHaveNoSlash(s[k + 1..]);
    } else {
      assert s[..k] == s;
    }
  }

  function Join(segs: seq<string>): string
    requires |segs| >= 1
  {
    if |segs| == 1 then segs[0] else segs[0] + "/" + Join(segs[1..])
  }

  // ----- Compiling an entry -----

  /** The characters that the escaping function of the regex library puts a backslash before. */
  predicate Special(c: char) {
    c in {'(', ')', '[', ']', '{', '}', '?', '*', '+', '-', '|', '^', '$', '\\', '.', '&', '~', '#', ' ',
          '\t', '\n', '\r', '\U{0B}', '\U{0C}'}
  }

  function EscapeChar(c: char): string {
    if Special(c) then ['\\', c] else [c]
  }

  function EscapeRegex(s: string): string {
    if s == [] then [] else EscapeChar(s[0]) + EscapeRegex(s[1..])
  }

  /** Textual replacement of an escaped star by `[^/]*`, left to right. */
  function ReplaceStars(s: string): string {
    if |s| < 2 then s
    else if s[0] == '\\' && s[1] == '*' then "[^/]*" + ReplaceStars(s[2..])
    else [s[0]] + ReplaceStars(s[1..])
  }

  function CompileSegment(seg: string): string {
    if seg == "**" then ".*" else ReplaceStars(EscapeRegex(seg))
  }

  function CompileSegments(segs: seq<string>): string
    requires |segs| >= 1
  {
    if |segs| == 1 then CompileSegment(segs[0]) else CompileSegment(segs[0]) + "/" + CompileSegments(segs[1..])
  }

  lemma Regroup(a: string, b: string, c: string)
    ensures a + "/" + (b + "/" + c) == (a + "/" + b) + "/" + c
  {
  }

  lemma {:induction false} CompilePush(init: seq<string>, last: string)
    requires |init| >= 1
    ensures CompileSegments(init + [last]) == CompileSegments(init) + "/" + CompileSegment(last)
  {
    if |init| > 1 {
      assert (init + [last])[1..] == init[1..] + [last];
      CompilePush(init[1..], last);
      Regroup(CompileSegment(init[0]), CompileSegments(init[1..]), CompileSegment(last));
    } else {
      assert (init + [last])[1..] == [last];
    }
  }

  /** The text between the anchors, built piece by piece. */
  method Compile(entry: string) returns (regex: string)
    ensures regex == CompileSegments(Split(entry))
  {
    var segs := Split(entry);
    regex := "";
    for i := 0 to |segs|
      invariant i == 0 ==> regex == ""
      invariant i > 0 ==> regex == CompileSegments(segs[..i])
    {
      assert segs[..i + 1] == segs[..i] + [segs[i]];
      if i > 0 {
        CompilePush(segs[..i], segs[i]);
        regex := regex + "/";
      }
      if segs[i] == "**" {
        regex := regex + ".*";
      } else {
        regex := regex + ReplaceStars(EscapeRegex(segs[i]));
      }
    }
    assert segs[..|segs|] == segs;
  }

  // ----- What the regular expression accepts -----

  datatype Token = Lit(c: char) | NotSlashStar | AnyStar

  /** Reading the expression text: escapes, the two starred classes, and plain characters. */
  function Parse(re: string): seq<Token> {
    if re == [] then []
    else if |re| >= 2 && re[0] == '\\' then [Lit(re[1])] + Parse(re[2..])
    else if "[^/]*" <= re then [NotSlashStar] + Parse(re[5..])
    else if ".*" <= re then [AnyStar] + Parse(re[2..])
    else [Lit(re[0])] + Parse(re[1..])
  }

  /** The stretches one token can consume. */
  predicate Takes(tok: Token, s: string) {
    match tok
    case Lit(c) => s == [c]
    case NotSlashStar => '/' !in s
    case AnyStar => '\n' !in s
  }

  /** The whole of `s` is consumed by the tokens, one consecutive stretch each. */
  predicate Match(toks: seq<Token>, s: string)
    decreases |toks|
  {
    if toks == [] then s == []
    else exists i :: 0 <= i <= |s| && Takes(toks[0], s[..i]) && Match(toks[1..], s[i..])
  }

  predicate EndsLine(s: string) {
    s != [] && s[|s| - 1] == '\n'
  }

  predicate Anchored(toks: seq<Token>, s: string) {
    Match(toks, s) || (EndsLine(s) && Match(toks, s[..|s| - 1]))
  }

  predicate CoveredBy(entry: string, path: string) {
    entry == path || Anchored(Parse(CompileSegments(Split(entry))), path)
  }

  /** The references that no entry selects, in order. */
  function Uncovered(paths: seq<string>, refs: set<string>): seq<string> {
    SortKeys(set r | r in refs && forall p :: p in paths ==> !CoveredBy(p, r))
  }

  // ----- What the glob means -----

  /** A star stands for any stretch without a slash, every other character for itself. */
  predicate SegmentGlob(seg: string, s: string) {
    if seg == [] then s == []
    else if seg[0] == '*' then exists i :: 0 <= i <= |s| && '/' !in s[..i] && SegmentGlob(seg[1..], s[i..])
    else s != [] && s[0] == seg[0] && SegmentGlob(seg[1..], s[1..])
  }

  predicate Selects(seg: string, s: string) {
    if seg == "**" then '\n' !in s else SegmentGlob(seg, s)
  }

  /** The segments select consecutive stretches of the path, separated by slashes; `**` spans slashes too. */
  predicate Glob(segs: seq<string>, path: string)
    requires |segs| >= 1
    decreases |segs|
  {
    if |segs| == 1 then Selects(segs[0], path)
    else exists i :: 0 <= i < |path| && path[i] == '/' && Selects(segs[0], path[..i]) && Glob(segs[1..], path[i + 1..])
  }

  // ----- Reading back what was compiled -----

  function SegmentTokens(seg: string): seq<Token> {
    if seg == [] then []
    else [if seg[0] == '*' then NotSlashStar else Lit(seg[0])] + SegmentTokens(seg[1..])
  }

  function PieceTokens(seg: string): seq<Token> {
    if seg == "**" then [AnyStar] else SegmentTokens(seg)
  }

  function GlobTokens(segs: seq<string>): seq<Token>
    requires |segs| >= 1
  {
    if |segs| == 1 then PieceTokens(segs[0]) else PieceTokens(segs[0]) + [Lit('/')] + GlobTokens(segs[1..])
  }

  function PieceText(c: char): string {
    if c == '*' then "[^/]*" else EscapeChar(c)
  }

  function SegmentText(seg: string): string {
    if seg == [] then [] else PieceText(seg[0]) + SegmentText(seg[1..])
  }

  /** No escaped text starts with a star, so a replacement never straddles two characters. */
  lemma {:induction false} ReplacementIsPerCharacter(seg: string)
    ensures ReplaceStars(EscapeRegex(seg)) == SegmentText(seg)
    ensures EscapeRegex(seg) != [] ==> EscapeRegex(seg)[0] != '*'
  {
    if seg != [] {
      ReplacementIsPerCharacter(seg[1..]);
      var e, rest := EscapeRegex(seg), EscapeRegex(seg[1..]);
      if Special(seg[0]) {
        assert e[1..] == [seg[0]] + rest && e[2..] == rest;
        if seg[0] != '*' && rest != [] { assert e[1..][1..] == rest; }
      } else {
        assert e[1..] == rest;
      }
    }
  }

  lemma ParsePiece(c: char, rest: string)
    ensures Parse(PieceText(c) + rest) == [if c == '*' then NotSlashStar else Lit(c)] + Parse(rest)
  {
    var re := PieceText(c) + rest;
    assert re[|PieceText(c)|..] == rest;
    if c == '*' {
      assert re[0] == '[' && "[^/]*" <= re;
    } else if !Special(c) {
      assert c != '[' && c != '.' && c != '\\';
      assert re[0] == c;
    }
  }

  lemma Concat<T>(a: seq<T>, b: seq<T>, c: seq<T>)
    ensures a + b + c == a + (b + c)
  {
  }

  lemma {:induction false} ParseSegment(seg: string, rest: string)
    ensures Parse(SegmentText(seg) + rest) == SegmentTokens(seg) + Parse(rest)
  {
    if seg == [] {
      assert SegmentText(seg) + rest == rest;
    } else {
      var tail := SegmentText(seg[1..]) + rest;
      Concat(PieceText(seg[0]), SegmentText(seg[1..]), rest);
      ParsePiece(seg[0], tail);
      ParseSegment(seg[1..], rest);
      Concat([if seg[0] == '*' then NotSlashStar else Lit(seg[0])], SegmentTokens(seg[1..]), Parse(rest));
    }
  }

  lemma ParseCompiledSegment(seg: string, rest: string)
    ensures Parse(CompileSegment(seg) + rest) == PieceTokens(seg) + Parse(rest)
  {
    if seg == "**" {
      var re := CompileSegment(seg) + rest;
      assert re[0] == '.' && re[1] == '*' && ".*" <= re && re[2..] == rest;
    } else {
      ReplacementIsPerCharacter(seg);
      ParseSegment(seg, rest);
    }
  }

  lemma ParseSlash(rest: string)
    ensures Parse("/" + rest) == [Lit('/')] + Parse(rest)
  {
    assert ("/" + rest)[1..] == rest && ("/" + rest)[0] == '/';
  }

  lemma {:induction false} ParseCompiled(segs: seq<string>, rest: string)
    requires |segs| >= 1
    ensures Parse(CompileSegments(segs) + rest) == GlobTokens(segs) + Parse(rest)
  {
    if |segs| == 1 {
      ParseCompiledSegment(segs[0], rest);
    } else {
      var tail := CompileSegments(segs[1..]) + rest;
      Concat(CompileSegment(segs[0]) + "/", CompileSegments(segs[1..]), rest);
      Concat(CompileSegment(segs[0]), "/", tail);
      ParseCompiledSegment(segs[0], "/" + tail);
      ParseSlash(tail);
      ParseCompiled(segs[1..], rest);
      Concat(PieceTokens(segs[0]) + [Lit('/')], GlobTokens(segs[1..]), Parse(rest));
      Concat(PieceTokens(segs[0]), [Lit('/')], Parse(tail));
    }
  }

  /** The compiled text, read back, is the token list of the segments. */
  lemma CompiledReadsBack(entry: string)
    ensures Parse(CompileSegments(Split(entry))) == GlobTokens(Split(entry))
  {
    ParseCompiled(Split(entry), []);
    assert CompileSegments(Split(entry)) + [] == CompileSegments(Split(entry));
    assert GlobTokens(Split(entry)) + [] == GlobTokens(Split(entry));
  }

  // ----- Matching is the glob -----

  lemma Slices<T>(s: seq<T>, k: int, i: int)
    requires 0 <= k <= i <= |s|
    ensures s[..i][..k] == s[..k] && s[k..][..i - k] == s[..i][k..] && s[k..][i - k..] == s[i..]
  {
  }

  /** The first token consumes this much, the others the rest. */
  ghost predicate Consumes(toks: seq<Token>, s: string, k: int)
    requires toks != []
  {
    0 <= k <= |s| && Takes(toks[0], s[..k]) && Match(toks[1..], s[k..])
  }

  lemma SomeConsumed(toks: seq<Token>, s: string) returns (k: int)
    requires toks != [] && Match(toks, s)
    ensures Consumes(toks, s, k)
  {
    k :| 0 <= k <= |s| && Takes(toks[0], s[..k]) && Match(toks[1..], s[k..]);
  }

  lemma ConsumedMatches(toks: seq<Token>, s: string, k: int)
    requires toks != [] && Consumes(toks, s, k)
    ensures Match(toks, s)
  {
  }

  lemma {:induction false} MatchSplits(a: seq<Token>, b: seq<Token>, s: string) returns (i: int)
    requires Match(a + b, s)
    ensures 0 <= i <= |s| && Match(a, s[..i]) && Match(b, s[i..])
  {
    if a == [] {
      i := 0;
      assert a + b == b && s[0..] == s;
    } else {
      assert (a + b)[1..] == a[1..] + b && (a + b)[0] == a[0];
      var k := SomeConsumed(a + b, s);
      var j := MatchSplits(a[1..], b, s[k..]);
      i := k + j;
      Slices(s, k, i);
      ConsumedMatches(a, s[..i], k);
    }
  }

  lemma {:induction false} MatchJoins(a: seq<Token>, b: seq<Token>, s: string, i: int)
    requires 0 <= i <= |s| && Match(a, s[..i]) && Match(b, s[i..])
    ensures Match(a + b, s)
  {
    if a == [] {
      assert a + b == b && s[i..] == s;
    } else {
      assert (a + b)[1..] == a[1..] + b && (a + b)[0] == a[0];
      var k := SomeConsumed(a, s[..i]);
      Slices(s, k, i);
      MatchJoins(a[1..], b, s[k..], i - k);
      ConsumedMatches(a + b, s, k);
    }
  }

  lemma {:induction false} SegmentMatches(seg: string, s: string)
    ensures Match(SegmentTokens(seg), s) <==> SegmentGlob(seg, s)
  {
    if seg != [] {
      var toks := SegmentTokens(seg);
      assert toks[1..] == SegmentTokens(seg[1..]);
      forall i | 0 <= i <= |s| {
        SegmentMatches(seg[1..], s[i..]);
      }
      if seg[0] != '*' && s != [] {
        assert s[..1] == [s[0]];
      }
    }
  }

  lemma PieceMatches(seg: string, s: string)
    ensures Match(PieceTokens(seg), s) <==> Selects(seg, s)
  {
    SegmentMatches(seg, s);
    if seg == "**" {
      assert s[|s|..] == [] && s[..|s|] == s && Match([AnyStar][1..], s[|s|..]);
    }
  }

  /** The token list of the segments accepts exactly what the glob selects. */
  lemma {:induction false} TokensMatchGlob(segs: seq<string>, path: string)
    requires |segs| >= 1
    ensures Match(GlobTokens(segs), path) <==> Glob(segs, path)
    decreases |segs|
  {
    if |segs| == 1 {
      PieceMatches(segs[0], path);
    } else {
      if Match(GlobTokens(segs), path) { TokensMeanGlob(segs, path); }
      if Glob(segs, path) { GlobMeansTokens(segs, path); }
    }
  }

  /** A slash token consumes exactly one slash. */
  lemma SlashMatches(rest: seq<Token>, s: string)
    ensures Match([Lit('/')] + rest, s) <==> s != [] && s[0] == '/' && Match(rest, s[1..])
  {
    var toks := [Lit('/')] + rest;
    assert toks[1..] == rest;
    if s != [] && s[0] == '/' {
      assert s[..1] == "/";
    }
  }

  lemma MatchAtSlash(a: seq<Token>, b: seq<Token>, s: string) returns (i: int)
    requires Match(a + [Lit('/')] + b, s)
    ensures 0 <= i < |s| && s[i] == '/' && Match(a, s[..i]) && Match(b, s[i + 1..])
  {
    Concat(a, [Lit('/')], b);
    i := MatchSplits(a, [Lit('/')] + b, s);
    SlashMatches(b, s[i..]);
    assert s[i..][1..] == s[i + 1..];
  }

  lemma MatchAcrossSlash(a: seq<Token>, b: seq<Token>, s: string, i: int)
    requires 0 <= i < |s| && s[i] == '/' && Match(a, s[..i]) && Match(b, s[i + 1..])
    ensures Match(a + [Lit('/')] + b, s)
  {
    assert s[i..][1..] == s[i + 1..];
    SlashMatches(b, s[i..]);
    MatchJoins(a, [Lit('/')] + b, s, i);
    Concat(a, [Lit('/')], b);
  }

  lemma {:induction false} TokensMeanGlob(segs: seq<string>, path: string)
    requires |segs| >= 2 && Match(GlobTokens(segs), path)
    ensures Glob(segs, path)
    decreases |segs|, 0
  {
    var i := MatchAtSlash(PieceTokens(segs[0]), GlobTokens(segs[1..]), path);
    PieceMatches(segs[0], path[..i]);
    TokensMatchGlob(segs[1..], path[i + 1..]);
  }

  lemma {:induction false} GlobMeansTokens(segs: seq<string>, path: string)
    requires |segs| >= 2 && Glob(segs, path)
    ensures Match(GlobTokens(segs), path)
    decreases |segs|, 0
  {
    var i :| 0 <= i < |path| && path[i] == '/' && Selects(segs[0], path[..i]) && Glob(segs[1..], path[i + 1..]);
    PieceMatches(segs[0], path[..i]);
    TokensMatchGlob(segs[1..], path[i + 1..]);
    MatchAcrossSlash(PieceTokens(segs[0]), GlobTokens(segs[1..]), path, i);
  }

  // ----- Splitting and joining -----

  lemma CutAt(s: string, k: nat)
    requires k < |s| && s[k] == '/'
    ensures s == s[..k] + "/" + s[k + 1..]
  {
  }

  lemma JoinCons(head: string, tail: seq<string>)
    requires |tail| >= 1
    ensures Join([head] + tail) == head + "/" + Join(tail)
  {
  }

  lemma {:induction false} JoinSplit(s: string)
    ensures Join(Split(s)) == s
    decreases |s|
  {
    var k := FirstSlash(s);
    if k < |s| {
      FirstSlashFound(s);
      JoinSplit(s[k + 1..]);
      JoinCons(s[..k], Split(s[k + 1..]));
      CutAt(s, k);
    }
  }

  lemma {:induction false} SplitJoin(segs: seq<string>)
    requires |segs| >= 1 && forall i :: 0 <= i < |segs| ==> '/' !in segs[i]
    ensures Split(Join(segs)) == segs
  {
    if |segs| == 1 {
      FirstSlashIs(segs[0], |segs[0]|);
    } else {
      var tail := "/" + Join(segs[1..]);
      assert Join(segs) == segs[0] + tail;
      assert (segs[0] + tail)[..|segs[0]|] == segs[0];
      FirstSlashIs(segs[0] + tail, |segs[0]|);
      SplitJoin(segs[1..]);
      assert (segs[0] + tail)[|segs[0]| + 1..] == Join(segs[1..]);
    }
  }

  // ----- What an entry covers -----

  lemma {:induction false} SegmentSelectsItself(seg: string)
    ensures SegmentGlob(seg, seg)
  {
    if seg != [] {
      SegmentSelectsItself(seg[1..]);
      assert seg[..1] == [seg[0]];
    }
  }

  lemma Parts(head: string, tail: string)
    ensures var s := head + "/" + tail; s[..|head|] == head && s[|head|] == '/' && s[|head| + 1..] == tail
  {
  }

  lemma {:induction false} GlobSelectsItself(segs: seq<string>)
    requires |segs| >= 1
    ensures Glob(segs, Join(segs))
  {
    SegmentSelectsItself(segs[0]);
    if |segs| > 1 {
      GlobSelectsItself(segs[1..]);
      Parts(segs[0], Join(segs[1..]));
      var path := Join(segs);
      assert path[|segs[0]|] == '/';
    }
  }

  /** An entry covers exactly the paths its segment glob selects, up to one newline that ends the path. */
  lemma CoversWhatTheGlobSelects(entry: string, path: string)
    ensures CoveredBy(entry, path) <==> (Glob(Split(entry), path) ||
                                         (EndsLine(path) && Glob(Split(entry), path[..|path| - 1])))
  {
    var segs := Split(entry);
    CompiledReadsBack(entry);
    TokensMatchGlob(segs, path);
    if EndsLine(path) { TokensMatchGlob(segs, path[..|path| - 1]); }
    JoinSplit(entry);
    GlobSelectsItself(segs);
  }

  /** A segment pattern without a slash never crosses one. */
  lemma {:induction false} SegmentStaysInside(seg: string, s: string)
    requires '/' !in seg && SegmentGlob(seg, s)
    ensures '/' !in s
  {
    if seg != [] {
      if seg[0] == '*' {
        var i :| 0 <= i <= |s| && '/' !in s[..i] && SegmentGlob(seg[1..], s[i..]);
        SegmentStaysInside(seg[1..], s[i..]);
        assert s == s[..i] + s[i..];
      } else {
        SegmentStaysInside(seg[1..], s[1..]);
        assert s == [s[0]] + s[1..];
      }
    }
  }

  ghost predicate PairUp(segs: seq<string>, parts: seq<string>) {
    |parts| == |segs| && forall i :: 0 <= i < |segs| ==> SegmentGlob(segs[i], parts[i])
  }

  lemma PairCons(segs: seq<string>, part: string, parts: seq<string>)
    requires |segs| >= 1
    ensures PairUp(segs, [part] + parts) <==> SegmentGlob(segs[0], part) && PairUp(segs[1..], parts)
  {
    var all := [part] + parts;
    if SegmentGlob(segs[0], part) && PairUp(segs[1..], parts) {
      forall i | 0 <= i < |segs| ensures SegmentGlob(segs[i], all[i]) {
        if i > 0 { assert segs[1..][i - 1] == segs[i] && all[i] == parts[i - 1]; }
      }
    }
    if PairUp(segs, all) {
      assert SegmentGlob(segs[0], all[0]);
      forall i | 0 <= i < |parts| ensures SegmentGlob(segs[1..][i], parts[i]) {
        assert segs[1..][i] == segs[i + 1] && all[i + 1] == parts[i];
      }
    }
  }

  /** The first segment selects what lies before this slash, the others what lies behind it. */
  ghost predicate CutsAt(segs: seq<string>, path: string, i: int)
    requires |segs| >= 2
  {
    0 <= i < |path| && path[i] == '/' && Selects(segs[0], path[..i]) && Glob(segs[1..], path[i + 1..])
  }

  lemma SomeCut(segs: seq<string>, path: string) returns (i: int)
    requires |segs| >= 2 && Glob(segs, path)
    ensures CutsAt(segs, path, i)
  {
    i :| 0 <= i < |path| && path[i] == '/' && Selects(segs[0], path[..i]) && Glob(segs[1..], path[i + 1..]);
  }

  lemma CutSelects(segs: seq<string>, path: string, i: int)
    requires |segs| >= 2 && CutsAt(segs, path, i)
    ensures Glob(segs, path)
  {
  }

  /** Only the first slash can end what a segment without `**` selects. */
  lemma FirstCut(segs: seq<string>, path: string)
    requires |segs| >= 2 && '/' !in segs[0] && segs[0] != "**"
    ensures Glob(segs, path) <==> CutsAt(segs, path, FirstSlash(path))
  {
    if Glob(segs, path) {
      var i := SomeCut(segs, path);
      SegmentStaysInside(segs[0], path[..i]);
      FirstSlashIs(path, i);
    }
    if CutsAt(segs, path, FirstSlash(path)) { CutSelects(segs, path, FirstSlash(path)); }
  }

  lemma OneSegment(seg: string, path: string)
    requires '/' !in seg && seg != "**"
    ensures Glob([seg], path) <==> PairUp([seg], Split(path))
  {
    if SegmentGlob(seg, path) {
      SegmentStaysInside(seg, path);
      FirstSlashIs(path, |path|);
    }
  }

  /** Without a `**` segment, the path has the same segments one by one: a single star stays in its segment. */
  lemma {:induction false} SegmentsPairUp(segs: seq<string>, path: string)
    requires |segs| >= 1 && forall i :: 0 <= i < |segs| ==> '/' !in segs[i] && segs[i] != "**"
    ensures Glob(segs, path) <==> PairUp(segs, Split(path))
    decreases |segs|
  {
    if |segs| == 1 {
      assert segs == [segs[0]];
      OneSegment(segs[0], path);
    } else {
      var k := FirstSlash(path);
      FirstSlashFound(path);
      FirstCut(segs, path);
      if k < |path| {
        var parts := Split(path[k + 1..]);
        SegmentsPairUp(segs[1..], path[k + 1..]);
        PairCons(segs, path[..k], parts);
        assert Split(path) == [path[..k]] + parts;
      }
    }
  }

  /** So an entry without a `**` segment covers only paths of its own depth. */
  lemma StarStaysInSegment(entry: string, path: string)
    requires "**" !in Split(entry) && '\n' !in path
    ensures CoveredBy(entry, path) <==> PairUp(Split(entry), Split(path))
  {
    CoversWhatTheGlobSelects(entry, path);
    assert !EndsLine(path);
    SegmentsHaveNoSlash(entry);
    SegmentsPairUp(Split(entry), path);
  }

  lemma {:induction false} LiteralSelectsOnlyItself(seg: string, s: string)
    requires '*' !in seg
    ensures SegmentGlob(seg, s) <==> s == seg
  {
    if seg != [] && s != [] {
      LiteralSelectsOnlyItself(seg[1..], s[1..]);
      assert seg == [seg[0]] + seg[1..] && s == [s[0]] + s[1..];
    }
  }

  /** A literal segment can only be cut off right behind itself. */
  lemma LiteralCut(segs: seq<string>, path: string)
    requires |segs| >= 2 && '*' !in segs[0]
    ensures Glob(segs, path) <==> segs[0] + "/" <= path && Glob(segs[1..], path[|segs[0]| + 1..])
  {
    var k := |segs[0]|;
    if Glob(segs, path) {
      var i := SomeCut(segs, path);
      LiteralSelectsOnlyItself(segs[0], path[..i]);
    }
    if segs[0] + "/" <= path {
      assert path[..k] == (segs[0] + "/")[..k] == segs[0] && path[k] == (segs[0] + "/")[k];
      LiteralSelectsOnlyItself(segs[0], path[..k]);
      if Glob(segs[1..], path[k + 1..]) { CutSelects(segs, path, k); }
    }
  }

  lemma PrefixInTwo(a: string, b: string, s: string)
    ensures a + b <= s <==> a <= s && b <= s[|a|..]
  {
    if a <= s {
      assert s == a + s[|a|..];
      CancelPrefix(a, b, s[|a|..]);
    }
    if a + b <= s { assert a == (a + b)[..|a|]; }
  }

  /** A literal directory followed by `**` selects exactly what lies under it, with the slash as the boundary. */
  lemma {:induction false} UnderDirectory(dir: seq<string>, path: string)
    requires |dir| >= 1 && (forall i :: 0 <= i < |dir| ==> '*' !in dir[i]) && '\n' !in path
    ensures Glob(dir + ["**"], path) <==> Join(dir) + "/" <= path
    decreases |dir|
  {
    var segs := dir + ["**"];
    assert segs[1..] == dir[1..] + ["**"] && segs[0] == dir[0];
    LiteralCut(segs, path);
    if |dir| > 1 && dir[0] + "/" <= path {
      UnderDirectory(dir[1..], path[|dir[0]| + 1..]);
    }
    if |dir| > 1 {
      assert Join(dir) + "/" == (dir[0] + "/") + (Join(dir[1..]) + "/");
      PrefixInTwo(dir[0] + "/", Join(dir[1..]) + "/", path);
    }
  }

  /** A literal directory entry covers a path exactly when the path starts with the directory and a slash. */
  lemma DirectoryEntryCovers(directory: string, path: string)
    requires '*' !in directory && '\n' !in path
    ensures CoveredBy(directory + "/**", path) <==> directory + "/" <= path
  {
    var dir := Split(directory);
    JoinSplit(directory);
    SegmentsAreLiteral(directory);
    SegmentsHaveNoSlash(directory);
    JoinPush(dir, "**");
    SplitJoin(dir + ["**"]);
    assert directory + "/**" == directory + "/" + "**";
    assert !EndsLine(path);
    CoversWhatTheGlobSelects(directory + "/**", path);
    UnderDirectory(dir, path);
  }

  lemma {:induction false} JoinPush(segs: seq<string>, last: string)
    requires |segs| >= 1
    ensures Join(segs + [last]) == Join(segs) + "/" + last
  {
    if |segs| == 1 {
      assert (segs + [last])[1..] == [last];
    } else {
      assert (segs + [last])[1..] == segs[1..] + [last];
      JoinPush(segs[1..], last);
      Regroup(segs[0], Join(segs[1..]), last);
    }
  }

  lemma {:induction false} SegmentsAreLiteral(s: string)
    requires '*' !in s
    ensures forall i :: 0 <= i < |Split(s)| ==> '*' !in Split(s)[i]
    decreases |s|
  {
    var k := FirstSlash(s);
    if k < |s| { SegmentsAreLiteral(s[k + 1..]); }
  }

  /** The report lists, in order and once each, the references that no entry's glob selects. */
  lemma UncoveredIsExact(paths: seq<string>, refs: set<string>, r: string)
    ensures Ascending(KeyLess, Uncovered(paths, refs))
    ensures r in Uncovered(paths, refs) <==> (r in refs && forall p :: p in paths ==> !CoveredBy(p, r))
  {
    var left := set x | x in refs && forall p :: p in paths ==> !CoveredBy(p, x);
    SortKeysEnumerates(left);
    KeysAreOrdered(left);
    SortAscends(KeyLess, left);
  }
}
