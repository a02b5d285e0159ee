/** Sorting a finite set by a strict order: the ascending enumeration, and that it is the only one. */
module Ordering {

  ghost predicate StrictTotalOn<T(!new)>(less: (T, T) -> bool, s: set<T>) {
    && (forall x :: x in s ==> !less(x, x))
    && (forall x, y :: x in s && y in s && x != y ==> less(x, y) || less(y, x))
    && (forall x, y, z :: x in s && y in s && z in s && less(x, y) && less(y, z) ==> less(x, z))
  }

  predicate IsLeast<T(==)>(less: (T, T) -> bool, s: set<T>, m: T) {
    m in s && forall x :: x in s && x != m ==> less(m, x)
  }

  lemma {:induction false} LeastExists<T(!new)>(less: (T, T) -> bool, s: set<T>)
    requires s != {} && StrictTotalOn(less, s)
    ensures exists m :: IsLeast(less, s, m)
    ensures forall m, n :: IsLeast(less, s, m) && IsLeast(less, s, n) ==> m == n
    decreases |s|
  {
    var x :| x in s;
    if s == {x} {
      assert IsLeast(less, s, x);
    } else {
      var rest := s - {x};
      assert s == {x} + rest;
      LeastExists(less, rest);
      var m :| IsLeast(less, rest, m);
      assert IsLeast(less, s, if less(x, m) then x else m);
    }
  }

  function Least<T(==,!new)>(less: (T, T) -> bool, s: set<T>): (m: T)
    requires s != {} && StrictTotalOn(less, s)
    ensures IsLeast(less, s, m)
  {
    LeastExists(less, s);
    var m :| m in s && IsLeast(less, s, m);
    m
  }

  function Sort<T(==,!new)>(less: (T, T) -> bool, s: set<T>): (r: seq<T>)
    requires StrictTotalOn(less, s)
    ensures |r| == |s|
  {
    if s == {} then [] else
      var m := Least(less, s);
      [m] + Sort(less, s - {m})
  }

  ghost predicate Enumerates<T(!new)>(r: seq<T>, s: set<T>) {
    forall x :: x in r <==> x in s
  }

  lemma {:induction false} SortEnumerates<T(!new)>(less: (T, T) -> bool, s: set<T>)
    requires StrictTotalOn(less, s)
    ensures Enumerates(Sort(less, s), s)
    decreases |s|
  {
    if s != {} {
      SortEnumerates(less, s - {Least(less, s)});
    }
  }

  ghost predicate Ascending<T(!new)>(less: (T, T) -> bool, r: seq<T>) {
    forall i, j :: 0 <= i < j < |r| ==> less(r[i], r[j])
  }

  lemma {:induction false} SortAscends<T(!new)>(less: (T, T) -> bool, s: set<T>)
    requires StrictTotalOn(less, s)
    ensures Ascending(less, Sort(less, s))
    decreases |s|
  {
    if s != {} {
      var m := Least(less, s);
      var rest := Sort(less, s - {m});
      SortAscends(less, s - {m});
      SortEnumerates(less, s - {m});
      forall i, j | 0 <= i < j < |Sort(less, s)| ensures less(Sort(less, s)[i], Sort(less, s)[j]) {
        if i == 0 { assert rest[j - 1] in rest; }
      }
    }
  }

  lemma HeadIsLeast<T(!new)>(less: (T, T) -> bool, s: set<T>, r: seq<T>)
    requires StrictTotalOn(less, s) && Ascending(less, r) && Enumerates(r, s) && s != {}
    ensures r != [] && IsLeast(less, s, r[0]) && r[0] == Least(less, s)
  {
  }

  lemma TailEnumerates<T(!new)>(less: (T, T) -> bool, s: set<T>, r: seq<T>)
    requires StrictTotalOn(less, s) && Ascending(less, r) && Enumerates(r, s) && r != []
    ensures Enumerates(r[1..], s - {r[0]})
  {
    assert r[0] in s;
    forall x | x in r[1..] ensures x in s - {r[0]} {
      var i :| 0 <= i < |r[1..]| && r[1..][i] == x;
      assert less(r[0], r[i + 1]);
    }
  }

  lemma Peel<T(!new)>(less: (T, T) -> bool, s: set<T>, r: seq<T>)
    requires StrictTotalOn(less, s) && Ascending(less, r) && Enumerates(r, s) && r != []
    ensures r[0] in s && StrictTotalOn(less, s - {r[0]}) && Sort(less, s) == [r[0]] + Sort(less, s - {r[0]})
    ensures Ascending(less, r[1..]) && Enumerates(r[1..], s - {r[0]})
  {
    assert r[0] in s;
    HeadIsLeast(less, s, r);
    TailEnumerates(less, s, r);
  }

  /** An ascending enumeration of a set is its sort. */
  lemma {:induction false} AscendingIsSort<T(!new)>(less: (T, T) -> bool, s: set<T>, r: seq<T>)
    requires StrictTotalOn(less, s) && Ascending(less, r) && Enumerates(r, s)
    ensures r == Sort(less, s)
    decreases |s|
  {
    if r == [] {
      assert s == {};
    } else {
      Peel(less, s, r);
      AscendingIsSort(less, s - {r[0]}, r[1..]);
    }
  }

  lemma TailIsAbove<T(!new)>(less: (T, T) -> bool, s: set<T>, r: seq<T>, above: set<T>, i: nat)
    requires StrictTotalOn(less, s) && Ascending(less, r) && Enumerates(r, s) && i < |r|
    requires above == set x | x in s && less(r[i], x)
    ensures Enumerates(r[i + 1..], above)
  {
    var rest := r[i + 1..];
    assert r[i] in s;
    forall x | x in rest ensures x in above {
      var j :| 0 <= j < |rest| && rest[j] == x;
      assert r[i + 1 + j] == x && x in r;
    }
    forall x | x in above ensures x in rest {
      assert x in r;
      var j :| 0 <= j < |r| && r[j] == x;
      assert rest[j - i - 1] == x;
    }
  }

  /** The elements above the i-th of a sorted set are, sorted, exactly the rest of the enumeration. */
  lemma SortedSuffix<T(!new)>(less: (T, T) -> bool, s: set<T>, above: set<T>, i: nat)
    requires StrictTotalOn(less, s) && i < |s|
    requires above == set x | x in s && less(Sort(less, s)[i], x)
    ensures StrictTotalOn(less, above) && Sort(less, above) == Sort(less, s)[i + 1..]
  {
    SortAscends(less, s);
    SortEnumerates(less, s);
    TailIsAbove(less, s, Sort(less, s), above, i);
    AscendingIsSort(less, above, Sort(less, s)[i + 1..]);
  }

  // ----- The order of record keys -----

  /** Keys compare by code point. */
  predicate KeyLess(a: string, b: string) {
    if b == [] then false
    else if a == [] then true
    else a[0] < b[0] || (a[0] == b[0] && KeyLess(a[1..], b[1..]))
  }

  lemma {:induction false} KeyLessIrreflexive(a: string)
    ensures !KeyLess(a, a)
  {
    if a != [] { KeyLessIrreflexive(a[1..]); }
  }

  lemma {:induction false} KeyLessTotal(a: string, b: string)
    requires a != b
    ensures KeyLess(a, b) || KeyLess(b, a)
  {
    if a != [] && b != [] && a[0] == b[0] {
      assert a == [a[0]] + a[1..] && b == [b[0]] + b[1..];
      KeyLessTotal(a[1..], b[1..]);
    }
  }

  lemma {:induction false} KeyLessTransitive(a: string, b: string, c: string)
    requires KeyLess(a, b) && KeyLess(b, c)
    ensures KeyLess(a, c)
  {
    if a != [] && a[0] == b[0] == c[0] { KeyLessTransitive(a[1..], b[1..], c[1..]); }
  }

  /** The keys agree on their first `k` characters, and there the first key ends or has the smaller character. */
  ghost predicate DiffersAt(a: string, b: string, k: nat) {
    && k <= |a| && k < |b| && a[..k] == b[..k]
    && (k < |a| ==> a[k] < b[k])
  }

  lemma {:induction false} LessDiffers(a: string, b: string) returns (k: nat)
    requires KeyLess(a, b)
    ensures DiffersAt(a, b, k)
  {
    if a == [] || a[0] < b[0] {
      k := 0;
    } else {
      var i := LessDiffers(a[1..], b[1..]);
      k := i + 1;
      assert a[..k] == [a[0]] + a[1..][..i] && b[..k] == [b[0]] + b[1..][..i];
    }
  }

  lemma {:induction false} DiffersIsLess(a: string, b: string, k: nat)
    requires DiffersAt(a, b, k)
    ensures KeyLess(a, b)
  {
    if k > 0 {
      assert a[0] == a[..k][0] && b[0] == b[..k][0];
      assert a[1..][..k - 1] == a[..k][1..] && b[1..][..k - 1] == b[..k][1..];
      DiffersIsLess(a[1..], b[1..], k - 1);
    }
  }

  /** A key comes first exactly if it does so at the first place where the two differ. */
  lemma KeyLessIff(a: string, b: string)
    ensures KeyLess(a, b) <==> exists k :: DiffersAt(a, b, k)
  {
    if KeyLess(a, b) { var k := LessDiffers(a, b); }
    if k: nat :| DiffersAt(a, b, k) { DiffersIsLess(a, b, k); }
  }

  lemma KeysAreOrdered(s: set<string>)
    ensures StrictTotalOn(KeyLess, s)
  {
    forall x ensures !KeyLess(x, x) { KeyLessIrreflexive(x); }
    forall x: string, y: string | x != y ensures KeyLess(x, y) || KeyLess(y, x) { KeyLessTotal(x, y); }
    forall x, y, z | KeyLess(x, y) && KeyLess(y, z) ensures KeyLess(x, z) { KeyLessTransitive(x, y, z); }
  }

  /** A set of keys in key order. */
  function SortKeys(s: set<string>): (r: seq<string>)
    ensures |r| == |s|
  {
    KeysAreOrdered(s);
    Sort(KeyLess, s)
  }

  lemma SortKeysEnumerates(s: set<string>)
    ensures Enumerates(SortKeys(s), s)
  {
    KeysAreOrdered(s);
    SortEnumerates(KeyLess, s);
  }

  lemma KeysAbove(s: set<string>, above: set<string>, i: nat)
    requires i < |s|
    requires above == set k | k in s && KeyLess(SortKeys(s)[i], k)
    ensures SortKeys(above) == SortKeys(s)[i + 1..]
  {
    KeysAreOrdered(s);
    SortedSuffix(KeyLess, s, above, i);
  }
}
