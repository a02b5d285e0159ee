/**
Newest-first paging over a key-ordered store. The scan walks a key cursor over the whole prefix; the answer is then
ordered by `(-recorded_at, key)` and paged by the key of the last row served.
*/
module Pagination {
  import opened Prelude
  import opened Ordering
  import opened RS = RuntimeState

  // ----- The key cursor -----

  function ScopeKeys<R>(rows: map<string, Row<R>>, prefix: string): set<string> {
    set k | k in rows && prefix <= k
  }

  function ScopeInOrder<R>(rows: map<string, Row<R>>, prefix: string): (r: seq<string>)
    ensures |r| == |ScopeKeys(rows, prefix)|
  {
    SortKeys(ScopeKeys(rows, prefix))
  }

  lemma ScopeIsStored<R>(rows: map<string, Row<R>>, prefix: string)
    ensures forall k :: k in ScopeInOrder(rows, prefix) <==> k in rows && prefix <= k
  {
    SortKeysEnumerates(ScopeKeys(rows, prefix));
  }

  /** The records in scope, in key order. */
  function ScopeRecords<R>(rows: map<string, Row<R>>, prefix: string): (r: seq<(string, R)>)
    ensures |r| == |ScopeInOrder(rows, prefix)|
  {
    ScopeIsStored(rows, prefix);
    Fetch(rows, ScopeInOrder(rows, prefix))
  }

  function PrefixPage(prefix: string, after: string, limit: int): Filter {
    Filter(None, None, false, after, limit, false, None, Some(prefix), None)
  }

  /** The first keys of a scope past a cursor. */
  function NextKeys(scope: set<string>, after: string, limit: nat): seq<string> {
    Truncate(SortKeys(set k | k in scope && KeyLess(after, k)), limit)
  }

  /** One query with a prefix and a cursor reads the next keys of the scope. */
  lemma QueryReadsNext<R>(rows: map<string, Row<R>>, columns: R -> Columns, prefix: string, after: string, limit: nat)
    ensures DecodedScan(rows, columns, PrefixPage(prefix, after, limit), 0.0) == NextKeys(ScopeKeys(rows, prefix), after, limit)
  {
    var f := PrefixPage(prefix, after, limit);
    assert (set k | k in rows && Selects(f, 0.0, k, columns(rows[k].data)))
        == (set k | k in ScopeKeys(rows, prefix) && KeyLess(after, k));
  }

  /** The page after the n-th key of the scope is the next stretch of the scope. */
  lemma PageContinues<R>(rows: map<string, Row<R>>, columns: R -> Columns, prefix: string, n: nat, limit: nat)
    requires prefix != ""
    requires n <= |ScopeInOrder(rows, prefix)|
    ensures
      var all := ScopeInOrder(rows, prefix);
      var after := if n == 0 then "" else all[n - 1];
      DecodedScan(rows, columns, PrefixPage(prefix, after, limit), 0.0) == Truncate(all[n..], limit)
  {
    var scope := ScopeKeys(rows, prefix);
    var all := ScopeInOrder(rows, prefix);
    var after := if n == 0 then "" else all[n - 1];
    QueryReadsNext(rows, columns, prefix, after, limit);
    var above := set k | k in scope && KeyLess(after, k);
    if n == 0 {
      assert above == scope;
      assert all[0..] == all;
    } else {
      KeysAbove(scope, above, n - 1);
    }
  }

  /** The records of that page are the next stretch of the records in scope. */
  lemma PageRecords<R>(rows: map<string, Row<R>>, prefix: string, n: nat, limit: nat, keys: seq<string>)
    requires n <= |ScopeInOrder(rows, prefix)| && keys == Truncate(ScopeInOrder(rows, prefix)[n..], limit)
    requires forall k :: k in keys ==> k in rows
    ensures Fetch(rows, keys) <= ScopeRecords(rows, prefix)[n..]
    ensures keys != [] ==> keys[|keys| - 1] == ScopeInOrder(rows, prefix)[n + |keys| - 1]
  {
    ScopeIsStored(rows, prefix);
  }

  /** One query of the walk. `n` is how many keys of the scope were read before it. */
  method NextPage<R>(state: RuntimeState<R>, prefix: string, after: string, scanPage: int,
                     ghost all: seq<string>, ghost fetched: seq<(string, R)>, ghost n: nat)
    returns (page: seq<(string, R)>)
    requires state.Valid() && prefix != "" && 1 <= scanPage <= 1000
    requires all == ScopeInOrder(state.rows, prefix) && fetched == ScopeRecords(state.rows, prefix)
    requires n <= |all| && after == if n == 0 then "" else all[n - 1]
    ensures |page| == if |all| - n <= scanPage then |all| - n else scanPage
    ensures page <= fetched[n..]
    ensures page != [] ==> page[|page| - 1].0 == all[n + |page| - 1]
  {
    PageContinues(state.rows, state.columns, prefix, n, scanPage);
    var res := state.Query(PrefixPage(prefix, after, scanPage), 0.0);
    page := res.value;
    PageRecords(state.rows, prefix, n, scanPage, DecodedScan(state.rows, state.columns, PrefixPage(prefix, after, scanPage), 0.0));
  }

  /** A stretch read off a sequence, then one more off its remainder. */
  lemma JoinStretch<T>(all: seq<T>, n: nat, next: seq<T>)
    requires n <= |all| && next <= all[n..]
    ensures n + |next| <= |all| && all[..n] + next == all[..n + |next|]
    ensures n + |next| == |all| ==> all[..n] + next == all
  {
  }

  /** One query of a scan that has read the first `n` records. */
  method ReadStretch<R>(state: RuntimeState<R>, prefix: string, after: string, scanPage: int,
                        ghost all: seq<string>, ghost fetched: seq<(string, R)>, ghost n: nat)
    returns (page: seq<(string, R)>)
    requires state.Valid() && prefix != "" && 1 <= scanPage <= 1000
    requires all == ScopeInOrder(state.rows, prefix) && fetched == ScopeRecords(state.rows, prefix)
    requires n <= |all| && after == if n == 0 then "" else all[n - 1]
    ensures n + |page| <= |all| && fetched[..n] + page == fetched[..n + |page|]
    ensures |page| != scanPage ==> fetched[..n] + page == fetched
    ensures page != [] ==> page[|page| - 1].0 == all[n + |page| - 1]
  {
    page := NextPage(state, prefix, after, scanPage, all, fetched, n);
    JoinStretch(fetched, n, page);
  }

  /** Walks the whole prefix page by page: every key in scope is read once, in key order. */
  method ScanScope<R>(state: RuntimeState<R>, prefix: string, scanPage: int) returns (window: seq<(string, R)>)
    requires state.Valid() && prefix != "" && 1 <= scanPage <= 1000
    ensures window == ScopeRecords(state.rows, prefix)
  {
    ghost var all := ScopeInOrder(state.rows, prefix);
    ghost var fetched := ScopeRecords(state.rows, prefix);
    ghost var n := 0;
    window := [];
    var after := "";
    var more := true;
    while more
      invariant n <= |all| == |fetched| && window == fetched[..n]
      invariant more ==> after == if n == 0 then "" else all[n - 1]
      invariant !more ==> window == fetched
      decreases |all| - n, more
    {
      var page := ReadStretch(state, prefix, after, scanPage, all, fetched, n);
      window := window + page;
      n := n + |page|;
      more := |page| == scanPage;
      if more { after := page[|page| - 1].0; }
    }
  }

  /** The number of records in scope, whatever the page size. */
  method Total<R>(state: RuntimeState<R>, prefix: string, scanPage: int) returns (counted: nat)
    requires state.Valid() && prefix != "" && 1 <= scanPage <= 1000
    ensures counted == |ScopeKeys(state.rows, prefix)|
  {
    ghost var all, fetched := ScopeInOrder(state.rows, prefix), ScopeRecords(state.rows, prefix);
    counted := 0;
    var after := "";
    var more := true;
    while more
      invariant counted <= |all|
      invariant more ==> after == if counted == 0 then "" else all[counted - 1]
      invariant !more ==> counted == |all|
      decreases |all| - counted, more
    {
      var page := NextPage(state, prefix, after, scanPage, all, fetched, counted);
      counted := counted + |page|;
      more := |page| == scanPage;
      if more { after := page[|page| - 1].0; }
    }
  }

  // ----- The time order -----

  /** When each record in scope was recorded. */
  type Times = map<string, real>

  predicate Newer(times: Times, a: string, b: string) {
    a in times && b in times && (times[a] > times[b] || (times[a] == times[b] && KeyLess(a, b)))
  }

  function Order(times: Times): (string, string) -> bool {
    (a, b) => Newer(times, a, b)
  }

  lemma TimesAreOrdered(times: Times, keys: set<string>)
    requires keys <= times.Keys
    ensures StrictTotalOn(Order(times), keys)
  {
    KeysAreOrdered(keys);
  }

  /** Some of the keys, newest first, ties by key. */
  function SortByTime(times: Times, keys: set<string>): (r: seq<string>)
    requires keys <= times.Keys
    ensures |r| == |keys|
  {
    TimesAreOrdered(times, keys);
    Sort(Order(times), keys)
  }

  lemma SortByTimeEnumerates(times: Times, keys: set<string>)
    requires keys <= times.Keys
    ensures Enumerates(SortByTime(times, keys), keys)
  {
    TimesAreOrdered(times, keys);
    SortEnumerates(Order(times), keys);
  }

  lemma SortByTimeAscends(times: Times, keys: set<string>)
    requires keys <= times.Keys
    ensures
      var r := SortByTime(times, keys);
      forall i, j :: 0 <= i < j < |r| ==> Newer(times, r[i], r[j]) && r[i] != r[j]
  {
    TimesAreOrdered(times, keys);
    SortAscends(Order(times), keys);
    var r := SortByTime(times, keys);
    forall i, j | 0 <= i < j < |r| ensures Newer(times, r[i], r[j]) && r[i] != r[j] {
      assert Order(times)(r[i], r[j]);
      KeyLessIrreflexive(r[i]);
    }
  }

  lemma AscendingIsSortByTime(times: Times, keys: set<string>, r: seq<string>)
    requires keys <= times.Keys
    requires Enumerates(r, keys)
    requires forall i, j :: 0 <= i < j < |r| ==> Newer(times, r[i], r[j])
    ensures r == SortByTime(times, keys)
  {
    TimesAreOrdered(times, keys);
    assert Ascending(Order(times), r);
    AscendingIsSort(Order(times), keys, r);
  }

  lemma OlderThan(times: Times, older: set<string>, i: nat)
    requires i < |times.Keys|
    requires older == set k | k in times && Newer(times, SortByTime(times, times.Keys)[i], k)
    ensures SortByTime(times, older) == SortByTime(times, times.Keys)[i + 1..]
  {
    TimesAreOrdered(times, times.Keys);
    assert older == set k | k in times.Keys && Order(times)(Sort(Order(times), times.Keys)[i], k);
    SortedSuffix(Order(times), times.Keys, older, i);
  }

  /** All records, newest first. */
  function Timeline(times: Times): seq<string> {
    SortByTime(times, times.Keys)
  }

  function Position(keys: seq<string>, key: string): (k: nat)
    ensures k <= |keys|
    ensures k < |keys| ==> keys[k] == key
    ensures key in keys ==> k < |keys|
  {
    if keys == [] || keys[0] == key then 0 else 1 + Position(keys[1..], key)
  }

  lemma PositionOfDistinct(keys: seq<string>, i: nat)
    requires i < |keys| && Distinct(keys)
    ensures Position(keys, keys[i]) == i
  {
  }

  /** What is left of an enumeration after an anchor. An unknown anchor leaves nothing. */
  function After(all: seq<string>, before: Option<string>): seq<string> {
    match before
    case None => all
    case Some(key) => if Position(all, key) < |all| then all[Position(all, key) + 1..] else []
  }

  /** What is left to serve after the record with key `before`. */
  function Rest(times: Times, before: Option<string>): seq<string> {
    After(Timeline(times), before)
  }

  ghost predicate Distinct(keys: seq<string>) {
    forall a, b :: 0 <= a < b < |keys| ==> keys[a] != keys[b]
  }

  lemma AfterKey(all: seq<string>, i: nat)
    requires Distinct(all) && i < |all|
    ensures After(all, Some(all[i])) == all[i + 1..]
  {
    PositionOfDistinct(all, i);
  }

  lemma DropTwice<T>(s: seq<T>, a: nat, b: nat)
    requires a + b <= |s|
    ensures s[a..][b..] == s[a + b..]
  {
  }

  lemma AfterContinues(all: seq<string>, before: Option<string>, n: nat)
    requires Distinct(all) && 1 <= n <= |After(all, before)|
    ensures After(all, before)[n - 1] in all
    ensures After(all, Some(After(all, before)[n - 1])) == After(all, before)[n..]
  {
    var from := AfterIsSuffix(all, before);
    AfterKey(all, from + n - 1);
    DropTwice(all, from, n);
  }

  lemma AfterIsSuffix(all: seq<string>, before: Option<string>) returns (from: nat)
    ensures from <= |all| && After(all, before) == all[from..]
  {
    if before.None? {
      from := 0;
      assert all[0..] == all;
    } else {
      var k := Position(all, before.value);
      from := if k < |all| then k + 1 else |all|;
    }
  }

  datatype PageError = BadPageLimit | BadCursor | CursorNotFound

  /** One page: the next `limit` keys after the anchor. */
  function RecentKeys(times: Times, limit: int, before: Option<string>): Result<seq<string>, PageError> {
    if !(1 <= limit <= 1000) then Err(BadPageLimit)
    else if before == Some("") then Err(BadCursor)
    else if before.Some? && before.value !in times then Err(CursorNotFound)
    else Ok(Truncate(Rest(times, before), limit))
  }

  /** The remainder after an anchor is the sort of the records older than it: nothing else matters. */
  lemma RestIsOlder(times: Times, anchor: string, older: set<string>)
    requires anchor in times
    requires older == set k | k in times && Newer(times, anchor, k)
    ensures Rest(times, Some(anchor)) == SortByTime(times, older)
  {
    var all := Timeline(times);
    SortByTimeEnumerates(times, times.Keys);
    assert anchor in all;
    OlderThan(times, older, Position(all, anchor));
  }

  /** Serving a stretch and continuing from its last row leaves exactly what came after the stretch. */
  lemma RestContinues(times: Times, before: Option<string>, n: nat)
    requires 1 <= n <= |Rest(times, before)|
    ensures Rest(times, before)[n - 1] in times
    ensures Rest(times, Some(Rest(times, before)[n - 1])) == Rest(times, before)[n..]
  {
    SortByTimeEnumerates(times, times.Keys);
    SortByTimeAscends(times, times.Keys);
    AfterContinues(Timeline(times), before, n);
  }

  // ----- What a page holds -----

  /** Recorded earlier, or at the same time under a later key: served after the record of `key`. */
  predicate Older(time: real, key: string, otherTime: real, other: string) {
    otherTime < time || (otherTime == time && KeyLess(key, other))
  }

  /** In scope and, if there is an anchor, older than it. */
  predicate StillToServe(times: Times, before: Option<string>, k: string) {
    k in times && (before.Some? ==> before.value in times && Older(times[before.value], before.value, times[k], k))
  }

  /** The page is in order, holds only what is still to serve, and what it leaves out is older than all it holds. */
  ghost predicate IsNewest(times: Times, limit: nat, before: Option<string>, page: seq<string>) {
    && |page| <= limit
    && (forall i :: 0 <= i < |page| ==> StillToServe(times, before, page[i]))
    && (forall i, j :: 0 <= i < j < |page| ==> Older(times[page[i]], page[i], times[page[j]], page[j]))
    && (forall k :: StillToServe(times, before, k) && k !in page ==>
          |page| == limit && (page == [] || Older(times[page[|page| - 1]], page[|page| - 1], times[k], k)))
  }

  function Left(times: Times, before: Option<string>): set<string> {
    set k | k in times && StillToServe(times, before, k)
  }

  lemma RestIsLeft(times: Times, before: Option<string>)
    requires before.Some? ==> before.value in times
    ensures Rest(times, before) == SortByTime(times, Left(times, before))
  {
    match before
    case None => assert Left(times, before) == times.Keys;
    case Some(anchor) => RestIsOlder(times, anchor, Left(times, before));
  }

  lemma SortedIsNewest(times: Times, limit: nat, before: Option<string>, left: set<string>)
    requires left == Left(times, before)
    ensures IsNewest(times, limit, before, Truncate(SortByTime(times, left), limit))
  {
    SortByTimeAscends(times, left);
    SortByTimeEnumerates(times, left);
    FirstAreNewest(times, limit, left, SortByTime(times, left));
    LeftIsToServe(times, before, left);
  }

  lemma LeftIsToServe(times: Times, before: Option<string>, left: set<string>)
    requires left == Left(times, before)
    ensures forall k :: k in left <==> StillToServe(times, before, k)
  {
  }

  /** Every page read serves the newest of what is left. */
  lemma PageIsNewest(times: Times, limit: nat, before: Option<string>)
    requires before.Some? ==> before.value in times
    ensures IsNewest(times, limit, before, Truncate(Rest(times, before), limit))
  {
    RestIsLeft(times, before);
    SortedIsNewest(times, limit, before, Left(times, before));
  }

  lemma BeyondPage(all: seq<string>, limit: nat, k: string) returns (i: nat)
    requires k in all && k !in Truncate(all, limit)
    ensures |Truncate(all, limit)| == limit <= i < |all| && all[i] == k
  {
    var page := Truncate(all, limit);
    i :| 0 <= i < |all| && all[i] == k;
    assert forall j :: 0 <= j < |page| ==> page[j] == all[j] && page[j] != k;
  }

  lemma FirstAreNewest(times: Times, limit: nat, left: set<string>, all: seq<string>)
    requires left <= times.Keys && Enumerates(all, left)
    requires forall i, j :: 0 <= i < j < |all| ==> Newer(times, all[i], all[j])
    ensures
      var page := Truncate(all, limit);
      && (forall i :: 0 <= i < |page| ==> page[i] in left)
      && (forall i, j :: 0 <= i < j < |page| ==> Older(times[page[i]], page[i], times[page[j]], page[j]))
      && (forall k :: k in left && k !in page ==>
            |page| == limit && (page == [] || Older(times[page[|page| - 1]], page[|page| - 1], times[k], k)))
  {
    var page := Truncate(all, limit);
    forall i | 0 <= i < |page| ensures page[i] in left { assert page[i] == all[i] && all[i] in all; }
    forall i, j | 0 <= i < j < |page| ensures Older(times[page[i]], page[i], times[page[j]], page[j]) {
      assert Newer(times, all[i], all[j]);
    }
    forall k | k in left && k !in page
      ensures |page| == limit && (page == [] || Older(times[page[|page| - 1]], page[|page| - 1], times[k], k))
    {
      assert k in all;
      var i := BeyondPage(all, limit, k);
      if page != [] { assert Newer(times, all[|page| - 1], all[i]); }
    }
  }

  // ----- Paging against a store that keeps changing -----

  /** Between two pages the anchor and everything older than it stayed; anything newer may have come, gone or moved. */
  ghost predicate OnlyNewerChanged(was: Times, now: Times, anchor: string) {
    && anchor in was && anchor in now && was[anchor] == now[anchor]
    && forall k :: StillToServe(was, Some(anchor), k) || StillToServe(now, Some(anchor), k) ==>
         k in was && k in now && was[k] == now[k]
  }

  lemma NewerIsToServe(times: Times, anchor: string, k: string)
    requires anchor in times
    ensures Newer(times, anchor, k) <==> StillToServe(times, Some(anchor), k)
  {
  }

  lemma SameOlder(was: Times, now: Times, anchor: string)
    requires OnlyNewerChanged(was, now, anchor)
    ensures (set k | k in was && Newer(was, anchor, k)) == (set k | k in now && Newer(now, anchor, k))
    ensures forall k :: k in was && Newer(was, anchor, k) ==> k in now && now[k] == was[k]
  {
    forall k ensures (k in was && Newer(was, anchor, k)) <==> (k in now && Newer(now, anchor, k)) {
      NewerIsToServe(was, anchor, k);
      NewerIsToServe(now, anchor, k);
    }
    forall k | k in was && Newer(was, anchor, k) ensures k in now && now[k] == was[k] {
      NewerIsToServe(was, anchor, k);
    }
  }

  /** Changes newer than an unchanged anchor leave the next page as it was. */
  lemma NewerChangesDoNotShift(was: Times, now: Times, anchor: string)
    requires OnlyNewerChanged(was, now, anchor)
    ensures Rest(now, Some(anchor)) == Rest(was, Some(anchor))
  {
    var older := set k | k in was && Newer(was, anchor, k);
    SameOlder(was, now, anchor);
    RestIsOlder(was, anchor, older);
    RestIsOlder(now, anchor, older);
    var r := SortByTime(was, older);
    SortByTimeAscends(was, older);
    SortByTimeEnumerates(was, older);
    forall i, j | 0 <= i < j < |r| ensures Newer(now, r[i], r[j]) {
      assert r[i] in older && r[j] in older;
    }
    AscendingIsSortByTime(now, older, r);
  }

  function Page(times: Times, limit: nat, before: Option<string>): seq<string> {
    Truncate(Rest(times, before), limit)
  }

  /** The pages served when the i-th request sees the i-th store; an empty page ends the walk. */
  ghost function Walk(stores: seq<Times>, limit: nat, before: Option<string>): seq<string>
    decreases stores
  {
    if stores == [] then []
    else
      var page := Page(stores[0], limit, before);
      if page == [] then [] else page + Walk(stores[1..], limit, Some(page[|page| - 1]))
  }

  /** Every change between two requests of the walk is newer than the anchor the next request uses. */
  ghost predicate Undisturbed(stores: seq<Times>, limit: nat, before: Option<string>)
    decreases stores
  {
    |stores| >= 2 ==>
      var page := Page(stores[0], limit, before);
      page != [] ==>
        && OnlyNewerChanged(stores[0], stores[1], page[|page| - 1])
        && Undisturbed(stores[1..], limit, Some(page[|page| - 1]))
  }

  /** The walk asked until a page came back empty. */
  ghost predicate ReachesEmptyPage(stores: seq<Times>, limit: nat, before: Option<string>)
    decreases stores
  {
    && stores != []
    && var page := Page(stores[0], limit, before);
       page != [] ==> ReachesEmptyPage(stores[1..], limit, Some(page[|page| - 1]))
  }

  lemma RestAfterPage(was: Times, now: Times, limit: nat, before: Option<string>, page: seq<string>)
    requires page == Page(was, limit, before) && page != []
    requires now == was || OnlyNewerChanged(was, now, page[|page| - 1])
    ensures Rest(now, Some(page[|page| - 1])) == Rest(was, before)[|page|..]
  {
    RestContinues(was, before, |page|);
    if now != was { NewerChangesDoNotShift(was, now, page[|page| - 1]); }
  }

  lemma JoinPage(rest: seq<string>, page: seq<string>, tail: seq<string>)
    requires page <= rest && tail <= rest[|page|..]
    ensures page + tail <= rest
    ensures tail == rest[|page|..] ==> page + tail == rest
  {
  }

  lemma WalkStep(stores: seq<Times>, limit: nat, before: Option<string>, page: seq<string>)
    requires |stores| >= 2 && Undisturbed(stores, limit, before) && page == Page(stores[0], limit, before) && page != []
    ensures Rest(stores[1], Some(page[|page| - 1])) == Rest(stores[0], before)[|page|..]
    ensures Undisturbed(stores[1..], limit, Some(page[|page| - 1]))
  {
    RestAfterPage(stores[0], stores[1], limit, before, page);
  }

  lemma WalkUnfolds(stores: seq<Times>, limit: nat, before: Option<string>, page: seq<string>)
    requires stores != [] && page == Page(stores[0], limit, before) && page != []
    ensures Walk(stores, limit, before) == page + Walk(stores[1..], limit, Some(page[|page| - 1]))
    ensures ReachesEmptyPage(stores, limit, before) <==> ReachesEmptyPage(stores[1..], limit, Some(page[|page| - 1]))
  {
  }

  /**
  The pages of a walk join up to the remainder as the first request saw it, with no gap and no repeat: a prefix of it
  after some pages, all of it once a page comes back empty.
  */
  lemma {:induction false} WalkServesRemainder(stores: seq<Times>, limit: nat, before: Option<string>)
    requires stores != [] && limit >= 1 && Undisturbed(stores, limit, before)
    ensures Walk(stores, limit, before) <= Rest(stores[0], before)
    ensures ReachesEmptyPage(stores, limit, before) ==> Walk(stores, limit, before) == Rest(stores[0], before)
    decreases stores
  {
    var page := Page(stores[0], limit, before);
    if page != [] {
      var anchor := page[|page| - 1];
      var tail := Walk(stores[1..], limit, Some(anchor));
      WalkUnfolds(stores, limit, before, page);
      if |stores| >= 2 {
        WalkStep(stores, limit, before, page);
        WalkServesRemainder(stores[1..], limit, Some(anchor));
      } else {
        assert tail == [] && !ReachesEmptyPage(stores[1..], limit, Some(anchor));
      }
      JoinPage(Rest(stores[0], before), page, tail);
    }
  }

  /** More requests than records always reach the empty page. */
  lemma {:induction false} WalkEnds(stores: seq<Times>, limit: nat, before: Option<string>)
    requires limit >= 1 && Undisturbed(stores, limit, before)
    requires stores != [] && |stores| > |Rest(stores[0], before)|
    ensures ReachesEmptyPage(stores, limit, before)
    decreases stores
  {
    var page := Page(stores[0], limit, before);
    if page != [] {
      WalkStep(stores, limit, before, page);
      WalkEnds(stores[1..], limit, Some(page[|page| - 1]));
    }
  }

  /** A whole walk from a first page serves the first store's timeline, in order, each record once. */
  lemma WalkServesTimeline(stores: seq<Times>, limit: nat)
    requires stores != [] && limit >= 1 && Undisturbed(stores, limit, None)
    requires |stores| > |stores[0]|
    ensures Walk(stores, limit, None) == Timeline(stores[0])
    ensures
      var served, times := Walk(stores, limit, None), stores[0];
      && (forall k :: k in served <==> k in times)
      && (forall i, j :: 0 <= i < j < |served| ==>
            times[served[i]] > times[served[j]]
            || (times[served[i]] == times[served[j]] && KeyLess(served[i], served[j])))
  {
    SortByTimeAscends(stores[0], stores[0].Keys);
    SortByTimeEnumerates(stores[0], stores[0].Keys);
    WalkServesRemainder(stores, limit, None);
    WalkEnds(stores, limit, None);
  }

  // ----- The page read -----

  function TimesOf<R>(rows: map<string, Row<R>>, prefix: string, stamp: R -> real): Times {
    map k | k in rows && prefix <= k :: stamp(rows[k].data)
  }

  lemma TimelineHolds(times: Times, key: string)
    ensures key in Timeline(times) <==> key in times
  {
    SortByTimeEnumerates(times, times.Keys);
  }

  /** One page of a window, after an optional anchor. */
  method PageKeys(times: Times, limit: int, before: Option<string>) returns (res: Result<seq<string>, PageError>)
    requires 1 <= limit <= 1000 && before != Some("")
    ensures res == RecentKeys(times, limit, before)
  {
    var sorted := Timeline(times);
    if before.Some? {
      var position := FindAnchor(sorted, before.value);
      TimelineHolds(times, before.value);
      if position == |sorted| { return Err(CursorNotFound); }
      sorted := sorted[position + 1..];
    }
    res := Ok(Truncate(sorted, limit));
  }

  /** Under the prefix and, if there is an anchor, recorded before it, or with it under a later key. */
  predicate InScope<R>(rows: map<string, Row<R>>, prefix: string, stamp: R -> real, before: Option<string>, k: string) {
    && k in rows && prefix <= k
    && (before.Some? ==>
          before.value in rows && Older(stamp(rows[before.value].data), before.value, stamp(rows[k].data), k))
  }

  function KeysOf<R>(page: seq<(string, R)>): seq<string> {
    seq(|page|, i requires 0 <= i < |page| => page[i].0)
  }

  /**
  What a page read promises about the records it returns: at most `limit` of those in scope, later ones first and
  equal times by key, and nothing in scope left out unless the page is full and all it holds comes before that.
  */
  ghost predicate ServesNewest<R>(rows: map<string, Row<R>>, prefix: string, stamp: R -> real, limit: nat, before: Option<string>, page: seq<(string, R)>)
    requires limit >= 1
  {
    && |page| <= limit
    && (forall i :: 0 <= i < |page| ==>
          InScope(rows, prefix, stamp, before, page[i].0) && page[i].1 == rows[page[i].0].data)
    && (forall i, j :: 0 <= i < j < |page| ==>
          || stamp(page[i].1) > stamp(page[j].1)
          || (stamp(page[i].1) == stamp(page[j].1) && KeyLess(page[i].0, page[j].0)))
    && (forall k :: InScope(rows, prefix, stamp, before, k) && k !in KeysOf(page) ==>
          |page| == limit && Older(stamp(page[limit - 1].1), page[limit - 1].0, stamp(rows[k].data), k))
  }

  /** The newest records of a prefix scope, newest first, after an optional anchor. */
  method Recent<R>(state: RuntimeState<R>, stamp: R -> real, prefix: string, scanPage: int, limit: int, before: Option<string>)
    returns (res: Result<seq<(string, R)>, PageError>)
    requires state.Valid() && prefix != "" && 1 <= scanPage <= 1000
    ensures res.Err? <==>
      !(1 <= limit <= 1000) || before == Some("") || (before.Some? && !(before.value in state.rows && prefix <= before.value))
    ensures res.Ok? ==> ServesNewest(state.rows, prefix, stamp, limit, before, res.value)
    ensures
      match RecentKeys(TimesOf(state.rows, prefix, stamp), limit, before)
      case Err(e) => res == Err(e)
      case Ok(keys) => (forall k :: k in keys ==> k in state.rows) && res == Ok(Fetch(state.rows, keys))
  {
    if !(1 <= limit <= 1000) { return Err(BadPageLimit); }
    if before == Some("") { return Err(BadCursor); }
    var window := ScanScope(state, prefix, scanPage);
    var times := StampsOf(state, stamp, prefix, window);
    var keys := PageKeys(times, limit, before);
    if keys.Err? { return Err(keys.error); }
    TimelineInScope(times, keys.value);
    res := Ok(Fetch(state.rows, keys.value));
    PageIsNewest(times, limit, before);
    NewestServed(state.rows, prefix, stamp, limit, before, keys.value);
  }

  lemma ToServeIffInScope<R>(rows: map<string, Row<R>>, prefix: string, stamp: R -> real, before: Option<string>, k: string)
    requires before.Some? ==> before.value in rows && prefix <= before.value
    ensures StillToServe(TimesOf(rows, prefix, stamp), before, k) <==> InScope(rows, prefix, stamp, before, k)
    ensures k in rows && prefix <= k ==>
      k in TimesOf(rows, prefix, stamp) && TimesOf(rows, prefix, stamp)[k] == stamp(rows[k].data)
  {
  }

  lemma FetchedKeys<R>(rows: map<string, Row<R>>, keys: seq<string>)
    requires forall k :: k in keys ==> k in rows
    ensures KeysOf(Fetch(rows, keys)) == keys
  {
  }

  lemma LeftOut(times: Times, limit: nat, before: Option<string>, page: seq<string>, k: string)
    requires limit >= 1 && IsNewest(times, limit, before, page) && StillToServe(times, before, k) && k !in page
    ensures |page| == limit && page[limit - 1] in times && Older(times[page[limit - 1]], page[limit - 1], times[k], k)
  {
    assert |page| == limit;
    assert StillToServe(times, before, page[limit - 1]);
  }

  /** A page that is the newest of the recorded times serves the newest of the records. */
  lemma NewestServed<R>(rows: map<string, Row<R>>, prefix: string, stamp: R -> real, limit: nat, before: Option<string>, keys: seq<string>)
    requires limit >= 1 && (before.Some? ==> before.value in rows && prefix <= before.value)
    requires IsNewest(TimesOf(rows, prefix, stamp), limit, before, keys) && forall k :: k in keys ==> k in rows
    ensures ServesNewest(rows, prefix, stamp, limit, before, Fetch(rows, keys))
  {
    var times, page := TimesOf(rows, prefix, stamp), Fetch(rows, keys);
    FetchedKeys(rows, keys);
    forall i | 0 <= i < |page| ensures InScope(rows, prefix, stamp, before, page[i].0) && page[i].1 == rows[page[i].0].data {
      ToServeIffInScope(rows, prefix, stamp, before, keys[i]);
    }
    forall i, j | 0 <= i < j < |page|
      ensures stamp(page[i].1) > stamp(page[j].1) || (stamp(page[i].1) == stamp(page[j].1) && KeyLess(page[i].0, page[j].0))
    {
      assert Older(times[keys[i]], keys[i], times[keys[j]], keys[j]);
    }
    forall k | InScope(rows, prefix, stamp, before, k) && k !in KeysOf(page)
      ensures |page| == limit && Older(stamp(page[limit - 1].1), page[limit - 1].0, stamp(rows[k].data), k)
    {
      ToServeIffInScope(rows, prefix, stamp, before, k);
      LeftOut(times, limit, before, keys, k);
    }
  }

  lemma TimelineInScope(times: Times, keys: seq<string>)
    requires forall k :: k in keys ==> k in Timeline(times)
    ensures forall k :: k in keys ==> k in times
  {
    SortByTimeEnumerates(times, times.Keys);
  }

  /** Searches the sorted window for the anchor. */
  method FindAnchor(sorted: seq<string>, key: string) returns (position: nat)
    ensures position == Position(sorted, key)
    ensures position == |sorted| <==> key !in sorted
  {
    position := 0;
    while position < |sorted| && sorted[position] != key
      invariant 0 <= position <= |sorted|
      invariant Position(sorted, key) == position + Position(sorted[position..], key)
    {
      assert sorted[position..][1..] == sorted[position + 1..];
      position := position + 1;
    }
  }

  /** The recording times of records read in order; a key read twice counts as read last. */
  function Stamps<R>(window: seq<(string, R)>, stamp: R -> real): Times {
    if window == [] then map[]
    else
      var last := window[|window| - 1];
      Stamps(window[..|window| - 1], stamp)[last.0 := stamp(last.1)]
  }

  lemma {:induction false} StampsAre<R>(rows: map<string, Row<R>>, keys: seq<string>, stamp: R -> real)
    requires forall k :: k in keys ==> k in rows
    ensures Stamps(Fetch(rows, keys), stamp) == map k | k in keys :: stamp(rows[k].data)
  {
    if keys != [] {
      var init, last := keys[..|keys| - 1], keys[|keys| - 1];
      assert keys == init + [last];
      assert Fetch(rows, keys)[..|init|] == Fetch(rows, init);
      StampsAre(rows, init, stamp);
    }
  }

  /** The recording times of a scanned window. */
  method StampsOf<R>(state: RuntimeState<R>, stamp: R -> real, prefix: string, window: seq<(string, R)>) returns (times: Times)
    requires window == ScopeRecords(state.rows, prefix)
    ensures times == TimesOf(state.rows, prefix, stamp)
  {
    times := map[];
    for i := 0 to |window|
      invariant times == Stamps(window[..i], stamp)
    {
      assert window[..i + 1][..i] == window[..i];
      times := times[window[i].0 := stamp(window[i].1)];
    }
    assert window[..|window|] == window;
    ScopeIsStored(state.rows, prefix);
    StampsAre(state.rows, ScopeInOrder(state.rows, prefix), stamp);
  }
}
