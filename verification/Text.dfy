/** Keys made of words joined by colons, and which keys a colon-terminated prefix selects. */
module Text {

  predicate StartsWith(s: string, prefix: string) {
    prefix <= s
  }

  function Digit(n: nat): char
    requires n < 10
  {
    "0123456789"[n]
  }

  function Decimal(n: nat): string {
    if n < 10 then [Digit(n)] else Decimal(n / 10) + [Digit(n % 10)]
  }

  lemma {:induction false} DecimalHasNoColon(n: nat)
    ensures ':' !in Decimal(n)
  {
    if n >= 10 { DecimalHasNoColon(n / 10); }
  }

  /** What a string of digits stands for. */
  function Value(s: string): int {
    if s == [] then 0 else 10 * Value(s[..|s| - 1]) + (s[|s| - 1] as int - '0' as int)
  }

  /** Reading a number back gives the number, so different numbers are written differently. */
  lemma {:induction false} DecimalReadsBack(n: nat)
    ensures Value(Decimal(n)) == n
  {
    assert Digit(n % 10) as int - '0' as int == n % 10;
    if n >= 10 {
      DecimalReadsBack(n / 10);
      assert Decimal(n)[..|Decimal(n)| - 1] == Decimal(n / 10);
    } else {
      assert Decimal(n)[..0] == [];
    }
  }

  lemma CancelPrefix(h: string, a: string, b: string)
    ensures h + a <= h + b <==> a <= b
  {
    if h + a <= h + b {
      assert (h + a)[|h|..] == a;
      assert (h + b)[|h|..] == b;
      assert (h + b)[..|h + a|] == h + a;
      assert a == b[..|a|];
    }
  }

  /**
  A word and a colon start another word, a colon and a colon-free rest exactly if the words agree or the other goes
  on.
  */
  lemma WordIsPrefixIff(word: string, other: string, rest: string)
    requires ':' !in rest
    ensures word + ":" <= other + ":" + rest <==> word == other || StartsWith(other, word + ":")
  {
    var a, b := word + ":", other + ":" + rest;
    assert a[|word|] == ':';
    if |a| <= |other| {
      assert b[..|a|] == other[..|a|];
    } else if |a| == |other| + 1 {
      assert b[..|a|] == other + ":";
      assert a[..|word|] == word && (other + ":")[..|word|] == other;
    }
  }

  /** The same with a first word in front: it agrees, or one of the two goes on past the other's colon. */
  lemma FirstWordIff(word: string, first: string, second: string)
    ensures word + ":" <= first + ":" + second
        <==> || word == first
             || StartsWith(first, word + ":")
             || (StartsWith(word, first + ":") && word[|first| + 1..] + ":" <= second)
  {
    var a, b := word + ":", first + ":" + second;
    assert b[|first|] == ':' && b[..|first|] == first && a[..|word|] == word;
    if |word| < |first| {
      assert b[..|a|] == first[..|a|];
    }
    if |word| > |first| && a <= b {
      assert word[..|first| + 1] == b[..|first| + 1] == first + ":";
    }
    if StartsWith(word, first + ":") {
      var tail := word[|first| + 1..];
      assert word == first + ":" + tail;
      assert a == (first + ":") + (tail + ":") && b == (first + ":") + second;
      CancelPrefix(first + ":", tail + ":", second);
    }
  }
}
