/**
The key cursor against a store that changes between two queries of one scan. Each query sees the scope as it is then:
nothing is read twice, nothing that stays is missed, and what was read was there.
*/
module ScanRuns {
  import opened FiniteSets
  import opened Ordering
  import opened RS = RuntimeState
  import opened Pagination

  /** The keys a scan reads when its i-th query sees the i-th scope; a short page ends it. */
  ghost function ScanKeys(scopes: seq<set<string>>, after: string, limit: nat): seq<string>
    decreases scopes
  {
    if scopes == [] then []
    else
      var page := NextKeys(scopes[0], after, limit);
      if |page| < limit || page == [] then page else page + ScanKeys(scopes[1..], page[|page| - 1], limit)
  }

  /** A short page was reached. */
  ghost predicate Completes(scopes: seq<set<string>>, after: string, limit: nat)
    decreases scopes
  {
    && scopes != []
    && var page := NextKeys(scopes[0], after, limit);
       |page| < limit || (page != [] && Completes(scopes[1..], page[|page| - 1], limit))
  }

  function Above(scope: set<string>, after: string): set<string> {
    set k | k in scope && KeyLess(after, k)
  }

  lemma PageAscends(scope: set<string>, after: string, limit: nat)
    ensures Ascending(KeyLess, NextKeys(scope, after, limit))
  {
    KeysAreOrdered(Above(scope, after));
    SortAscends(KeyLess, Above(scope, after));
  }

  /** A page lies past the cursor and in the scope. */
  lemma PageIsWithin(scope: set<string>, after: string, limit: nat, k: string)
    requires k in NextKeys(scope, after, limit)
    ensures k in scope && KeyLess(after, k)
  {
    SortKeysEnumerates(Above(scope, after));
    InPage(SortKeys(Above(scope, after)), limit, k);
  }

  lemma InPage(all: seq<string>, limit: nat, k: string)
    requires k in Truncate(all, limit)
    ensures k in all
  {
  }

  /** A page skips nothing before its last key, and nothing at all if it is short. */
  lemma PageReaches(scope: set<string>, after: string, limit: nat, page: seq<string>, k: string)
    requires limit >= 1 && page == NextKeys(scope, after, limit) && k in scope && KeyLess(after, k)
    ensures k in page || (|page| == limit && KeyLess(page[|page| - 1], k))
  {
    var above := Above(scope, after);
    KeysAreOrdered(above);
    SortAscends(KeyLess, above);
    SortKeysEnumerates(above);
    Reaches(SortKeys(above), limit, k);
  }

  lemma Reaches(all: seq<string>, limit: nat, k: string)
    requires limit >= 1 && k in all && Ascending(KeyLess, all)
    ensures var page := Truncate(all, limit); k in page || (|page| == limit && KeyLess(page[|page| - 1], k))
  {
    var i :| 0 <= i < |all| && all[i] == k;
    var page := Truncate(all, limit);
    assert i < |page| ==> page[i] == k;
  }

  lemma AscendingAppend(a: seq<string>, b: seq<string>)
    requires a != [] && Ascending(KeyLess, a) && Ascending(KeyLess, b)
    requires forall k :: k in b ==> KeyLess(a[|a| - 1], k)
    ensures Ascending(KeyLess, a + b)
    ensures forall k :: k in b ==> KeyLess(a[0], k)
  {
    var r := a + b;
    forall i, j | 0 <= i < j < |r| ensures KeyLess(r[i], r[j]) {
      if i < |a| <= j {
        assert r[j] == b[j - |a|] && r[j] in b;
        if i < |a| - 1 { KeyLessTransitive(a[i], a[|a| - 1], r[j]); }
      }
    }
    forall k | k in b ensures KeyLess(a[0], k) {
      if |a| > 1 { KeyLessTransitive(a[0], a[|a| - 1], k); }
    }
  }

  lemma ScanUnfolds(scopes: seq<set<string>>, after: string, limit: nat, page: seq<string>)
    requires scopes != [] && page == NextKeys(scopes[0], after, limit)
    ensures ScanKeys(scopes, after, limit) ==
      if |page| < limit || page == [] then page else page + ScanKeys(scopes[1..], page[|page| - 1], limit)
  {
  }

  /** The keys of a scan ascend and lie past its cursor, so none is read twice, whatever happens between the queries. */
  lemma {:induction false} ScanAscends(scopes: seq<set<string>>, after: string, limit: nat)
    ensures Ascending(KeyLess, ScanKeys(scopes, after, limit))
    ensures forall k :: k in ScanKeys(scopes, after, limit) ==> KeyLess(after, k)
    decreases scopes
  {
    if scopes != [] {
      var page := NextKeys(scopes[0], after, limit);
      ScanUnfolds(scopes, after, limit, page);
      PageAscends(scopes[0], after, limit);
      forall k | k in page ensures KeyLess(after, k) { PageIsWithin(scopes[0], after, limit, k); }
      if |page| == limit && page != [] {
        var last := page[|page| - 1];
        var rest := ScanKeys(scopes[1..], last, limit);
        ScanAscends(scopes[1..], last, limit);
        AscendingAppend(page, rest);
        assert last in page;
        forall k | k in rest ensures KeyLess(after, k) { KeyLessTransitive(after, last, k); }
      }
    }
  }

  /** Every key read was in scope when some query of the scan looked. */
  lemma {:induction false} ScanReadsWhatWasThere(scopes: seq<set<string>>, after: string, limit: nat, k: string)
    requires k in ScanKeys(scopes, after, limit)
    ensures exists i :: 0 <= i < |scopes| && k in scopes[i]
    decreases scopes
  {
    var page := NextKeys(scopes[0], after, limit);
    ScanUnfolds(scopes, after, limit, page);
    if k in page {
      PageIsWithin(scopes[0], after, limit, k);
    } else {
      ScanReadsWhatWasThere(scopes[1..], page[|page| - 1], limit, k);
      var i :| 0 <= i < |scopes[1..]| && k in scopes[1..][i];
      assert k in scopes[i + 1];
    }
  }

  /** A scan that reached a short page read every key that stayed in scope throughout. */
  lemma {:induction false} ScanMissesNothingThatStays(scopes: seq<set<string>>, after: string, limit: nat, k: string)
    requires limit >= 1 && Completes(scopes, after, limit) && KeyLess(after, k)
    requires forall i :: 0 <= i < |scopes| ==> k in scopes[i]
    ensures k in ScanKeys(scopes, after, limit)
    decreases scopes
  {
    var page := NextKeys(scopes[0], after, limit);
    PageReaches(scopes[0], after, limit, page, k);
    if k !in page {
      ScanMissesNothingThatStays(scopes[1..], page[|page| - 1], limit, k);
    }
  }

  /**
  If all the keys that ever come into scope are among finitely many, that many queries and one more always end the
  scan.
  */
  lemma {:induction false} ScanEnds(scopes: seq<set<string>>, after: string, limit: nat, universe: set<string>)
    requires limit >= 1 && forall i :: 0 <= i < |scopes| ==> scopes[i] <= universe
    requires |scopes| > |Above(universe, after)|
    ensures Completes(scopes, after, limit)
    decreases scopes
  {
    var page := NextKeys(scopes[0], after, limit);
    if |page| == limit {
      var last := page[|page| - 1];
      PageIsWithin(scopes[0], after, limit, last);
      AboveShrinks(universe, after, last);
      ScanEnds(scopes[1..], last, limit, universe);
    }
  }

  lemma AboveShrinks(universe: set<string>, after: string, last: string)
    requires last in Above(universe, after)
    ensures |Above(universe, last)| < |Above(universe, after)|
  {
    KeyLessIrreflexive(last);
    forall k | k in Above(universe, last) ensures k in Above(universe, after) - {last} {
      KeyLessTransitive(after, last, k);
    }
    SubsetSize(Above(universe, last), Above(universe, after) - {last});
  }

  /** Against a store that does not change, a scan reads its scope in order. */
  lemma ScanOfASteadyStore(scopes: seq<set<string>>, limit: nat, scope: set<string>)
    requires limit >= 1 && |scopes| > |scope| && (forall i :: 0 <= i < |scopes| ==> scopes[i] == scope) && "" !in scope
    ensures ScanKeys(scopes, "", limit) == SortKeys(scope)
  {
    var read := ScanKeys(scopes, "", limit);
    assert Above(scope, "") == scope;
    ScanEnds(scopes, "", limit, scope);
    ScanAscends(scopes, "", limit);
    forall k ensures k in read <==> k in scope {
      if k in read { ScanReadsWhatWasThere(scopes, "", limit, k); }
      if k in scope { ScanMissesNothingThatStays(scopes, "", limit, k); }
    }
    KeysAreOrdered(scope);
    AscendingIsSort(KeyLess, scope, read);
  }

  function KeySet(keys: seq<string>): set<string> {
    set k | k in keys
  }

  lemma {:induction false} AscendingCounts(keys: seq<string>)
    requires Ascending(KeyLess, keys)
    ensures |KeySet(keys)| == |keys|
  {
    if keys != [] {
      var init, last := keys[..|keys| - 1], keys[|keys| - 1];
      AscendingCounts(init);
      LastIsNew(init, last, keys);
      KeySetPush(init, last, keys);
    }
  }

  lemma LastIsNew(init: seq<string>, last: string, keys: seq<string>)
    requires keys == init + [last] && Ascending(KeyLess, keys)
    ensures last !in init
  {
    KeyLessIrreflexive(last);
    forall i | 0 <= i < |init| ensures init[i] != last {
      assert KeyLess(keys[i], keys[|init|]);
    }
  }

  lemma KeySetPush(init: seq<string>, last: string, keys: seq<string>)
    requires keys == init + [last]
    ensures KeySet(keys) == KeySet(init) + {last}
  {
  }

  /**
  So a count over a changing store is at least the number of keys that stay and at most the number that ever come.
  */
  lemma CountOfAChangingStore(scopes: seq<set<string>>, limit: nat, stays: set<string>, universe: set<string>)
    requires limit >= 1 && Completes(scopes, "", limit) && "" !in stays
    requires forall i :: 0 <= i < |scopes| ==> stays <= scopes[i] <= universe
    ensures |stays| <= |ScanKeys(scopes, "", limit)| <= |universe|
  {
    var read := ScanKeys(scopes, "", limit);
    ScanAscends(scopes, "", limit);
    AscendingCounts(read);
    forall k | k in stays ensures k in KeySet(read) { ScanMissesNothingThatStays(scopes, "", limit, k); }
    forall k | k in read ensures k in universe {
      ScanReadsWhatWasThere(scopes, "", limit, k);
    }
    SubsetSize(stays, KeySet(read));
    SubsetSize(KeySet(read), universe);
  }
}
