/** Sizes of finite sets that a step changes by one element. */
module FiniteSets {

  lemma SizeByOne<T>(a: set<T>, b: set<T>, x: T)
    requires a - {x} == b - {x}
    ensures |a| == |b| + (if x in a then 1 else 0) - (if x in b then 1 else 0)
  {
    assert x in a ==> a == (a - {x}) + {x};
    assert x in b ==> b == (b - {x}) + {x};
    assert x !in a ==> a == a - {x};
    assert x !in b ==> b == b - {x};
  }

  lemma SubsetSize<T>(a: set<T>, b: set<T>)
    requires a <= b
    ensures |a| <= |b|
  {
    assert b == a + (b - a);
  }

  lemma SizeWithout<T>(a: set<T>, b: set<T>)
    requires b <= a
    ensures |a - b| == |a| - |b|
  {
    assert a == (a - b) + b;
  }
}
