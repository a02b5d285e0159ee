/**
Transactional runtime records. One object is one namespace of the table: versioned rows whose index columns are
derived from the decoded data on every write, and queries that only look at keys and index columns.
*/
module RuntimeState {
  import opened Prelude
  import opened Ordering
  import LikePattern

  /** The indexed columns of a row. */
  datatype Columns = Columns(
    recordState: string,
    taskId: string,
    workspace: string,
    nextRetryAt: real,
    deliveredAt: real)

  datatype Row<R> = Row(data: R, columns: Columns, createdAt: real, updatedAt: real, version: nat)

  datatype MutateError<+E> = RecordConflict | Raised(error: E)

  datatype Filter = Filter(
    status: Option<string>,
    taskId: Option<string>,
    taskIdPresent: bool,
    after: string,
    limit: int,
    due: bool,
    workspace: Option<string>,
    prefix: Option<string>,
    deliveredBefore: Option<real>)

  datatype QueryError = BadLimit

  predicate Wanted<T(==)>(wanted: Option<T>, value: T) {
    wanted.None? || wanted.value == value
  }

  /** The WHERE clause on everything but the key pattern. */
  predicate SelectsRow(f: Filter, now: real, key: string, c: Columns) {
    && KeyLess(f.after, key)
    && (f.taskIdPresent ==> KeyLess("", c.taskId))
    && Wanted(f.status, c.recordState) && Wanted(f.taskId, c.taskId) && Wanted(f.workspace, c.workspace)
    && (f.due ==> c.nextRetryAt <= now)
    && (f.deliveredBefore.Some? ==> c.deliveredAt <= f.deliveredBefore.value)
  }

  /** The WHERE clause as sent to the database: the prefix travels as an escaped LIKE pattern. */
  predicate SelectsLike(f: Filter, now: real, key: string, c: Columns) {
    SelectsRow(f, now, key, c) && (f.prefix.Some? ==> LikePattern.Like(LikePattern.PrefixPattern(f.prefix.value), key))
  }

  /** What the caller means: the same, with a literal prefix. */
  predicate Selects(f: Filter, now: real, key: string, c: Columns) {
    SelectsRow(f, now, key, c) && (f.prefix.Some? ==> f.prefix.value <= key)
  }

  /** The reference answer: decode every row, keep those the filter means, order by key, cut at the limit. */
  function DecodedScan<R>(rows: map<string, Row<R>>, columns: R -> Columns, f: Filter, now: real): seq<string>
    requires f.limit >= 0
  {
    var keys := set k | k in rows && Selects(f, now, k, columns(rows[k].data));
    Truncate(SortKeys(keys), f.limit)
  }

  lemma ScanSelects<R>(rows: map<string, Row<R>>, columns: R -> Columns, f: Filter, now: real)
    requires f.limit >= 0
    ensures forall k :: k in DecodedScan(rows, columns, f, now) ==> k in rows && Selects(f, now, k, columns(rows[k].data))
  {
    var keys := set k | k in rows && Selects(f, now, k, columns(rows[k].data));
    SortKeysEnumerates(keys);
    forall k | k in DecodedScan(rows, columns, f, now) ensures k in keys {
      assert k in SortKeys(keys);
    }
  }

  // ----- What a query promises -----

  /** Each filter that is set holds of the record; a filter that is not set asks nothing. */
  predicate Meets(f: Filter, now: real, key: string, c: Columns) {
    && KeyLess(f.after, key)
    && (f.prefix.Some? ==> f.prefix.value <= key)
    && (f.status.Some? ==> c.recordState == f.status.value)
    && (f.taskId.Some? ==> c.taskId == f.taskId.value)
    && (f.taskIdPresent ==> c.taskId != "")
    && (f.workspace.Some? ==> c.workspace == f.workspace.value)
    && (f.due ==> c.nextRetryAt <= now)
    && (f.deliveredBefore.Some? ==> c.deliveredAt <= f.deliveredBefore.value)
  }

  /**
  The answer holds at most `limit` records that meet the filter, ascending by key, and leaves none out that does unless
  it is full and that record's key comes after all of them.
  */
  ghost predicate Answers<R>(rows: map<string, Row<R>>, columns: R -> Columns, f: Filter, now: real, keys: seq<string>) {
    && |keys| <= f.limit
    && (forall k :: k in keys ==> k in rows && Meets(f, now, k, columns(rows[k].data)))
    && (forall i, j :: 0 <= i < j < |keys| ==> KeyLess(keys[i], keys[j]))
    && (forall k :: k in rows && Meets(f, now, k, columns(rows[k].data)) && k !in keys ==>
          |keys| == f.limit && (keys == [] || KeyLess(keys[|keys| - 1], k)))
  }

  lemma MeetsIffSelects(f: Filter, now: real, key: string, c: Columns)
    ensures Selects(f, now, key, c) <==> Meets(f, now, key, c)
  {
  }

  lemma FirstKeys(keys: set<string>, limit: nat, k: string)
    requires k in keys && k !in Truncate(SortKeys(keys), limit)
    ensures var page := Truncate(SortKeys(keys), limit); |page| == limit && (page == [] || KeyLess(page[|page| - 1], k))
  {
    var all, page := SortKeys(keys), Truncate(SortKeys(keys), limit);
    KeysAreOrdered(keys);
    SortAscends(KeyLess, keys);
    SortKeysEnumerates(keys);
    var i :| 0 <= i < |all| && all[i] == k;
    assert forall j :: 0 <= j < |page| ==> page[j] == all[j] && page[j] != k;
  }

  lemma ScanLeavesOut<R>(rows: map<string, Row<R>>, columns: R -> Columns, f: Filter, now: real, k: string)
    requires f.limit >= 0 && k in rows && Meets(f, now, k, columns(rows[k].data)) && k !in DecodedScan(rows, columns, f, now)
    ensures var page := DecodedScan(rows, columns, f, now);
      |page| == f.limit && (page == [] || KeyLess(page[|page| - 1], k))
  {
    MeetsIffSelects(f, now, k, columns(rows[k].data));
    var meant := set x | x in rows && Selects(f, now, x, columns(rows[x].data));
    FirstKeys(meant, f.limit, k);
  }

  lemma ScanAscends<R>(rows: map<string, Row<R>>, columns: R -> Columns, f: Filter, now: real)
    requires f.limit >= 0
    ensures var page := DecodedScan(rows, columns, f, now); forall i, j :: 0 <= i < j < |page| ==> KeyLess(page[i], page[j])
  {
    var meant := set k | k in rows && Selects(f, now, k, columns(rows[k].data));
    KeysAreOrdered(meant);
    SortAscends(KeyLess, meant);
  }

  lemma ScanAnswers<R>(rows: map<string, Row<R>>, columns: R -> Columns, f: Filter, now: real)
    requires f.limit >= 0
    ensures Answers(rows, columns, f, now, DecodedScan(rows, columns, f, now))
  {
    ScanSelects(rows, columns, f, now);
    ScanAscends(rows, columns, f, now);
    var page := DecodedScan(rows, columns, f, now);
    forall k | k in page ensures k in rows && Meets(f, now, k, columns(rows[k].data)) {
      MeetsIffSelects(f, now, k, columns(rows[k].data));
    }
    forall k | k in rows && Meets(f, now, k, columns(rows[k].data)) && k !in page
      ensures |page| == f.limit && (page == [] || KeyLess(page[|page| - 1], k))
    {
      ScanLeavesOut(rows, columns, f, now, k);
    }
  }

  function Truncate<T>(s: seq<T>, limit: nat): (r: seq<T>)
    ensures r <= s && |r| == if |s| <= limit then |s| else limit
  {
    if |s| <= limit then s else s[..limit]
  }

  /** The keys with their decoded data. */
  function Fetch<R>(rows: map<string, Row<R>>, keys: seq<string>): (r: seq<(string, R)>)
    requires forall k :: k in keys ==> k in rows
    ensures |r| == |keys|
    ensures forall i :: 0 <= i < |r| ==> r[i] == (keys[i], rows[keys[i]].data)
  {
    seq(|keys|, i requires 0 <= i < |keys| => (keys[i], rows[keys[i]].data))
  }

  class RuntimeState<R(==)> {
    const empty: R
    const columns: R -> Columns
    var rows: map<string, Row<R>>

    /** Every index column agrees with the data it was derived from. */
    ghost predicate Valid()
      reads this
    {
      forall k :: k in rows ==> rows[k].columns == columns(rows[k].data)
    }

    /** A record that was never written reads as the empty one. */
    function Get(key: string): R
      reads this
    {
      if key in rows then rows[key].data else empty
    }

    function Version(key: string): nat
      reads this
    {
      if key in rows then rows[key].version else 0
    }

    /** All records as values, the view the protocols work on. */
    ghost function Data(): map<string, R>
      reads this
    {
      map k | k in rows :: rows[k].data
    }

    constructor (empty: R, columns: R -> Columns)
      ensures Valid() && rows == map[] && this.empty == empty && this.columns == columns
    {
      this.empty, this.columns, rows := empty, columns, map[];
    }

    /**
    One atomic read-modify-write of one record. A version mismatch or a change function that raises leaves the table
    as it was; otherwise exactly this row is replaced, its columns recomputed and its version advanced by one.
    */
    method Mutate<E>(key: string, change: R -> Result<R, E>, expected: Option<nat>, now: real)
      returns (res: Result<R, MutateError<E>>)
      requires Valid()
      modifies this
      ensures Valid()
      ensures res.Ok? <==> Wanted(expected, old(Version(key))) && change(old(Get(key))).Ok?
      ensures res.Ok? ==>
        && change(old(Get(key))) == Ok(res.value)
        && rows.Keys == old(rows).Keys + {key}
        && rows[key].data == res.value && rows[key].columns == columns(res.value)
        && rows[key].updatedAt == now && rows[key].version == (if key in old(rows) then old(rows)[key].version else 0) + 1
        && rows[key].createdAt ==
             (if key in old(rows) && old(rows)[key].createdAt != 0.0 then old(rows)[key].createdAt else now)
        && (forall k :: k in old(rows) && k != key ==> rows[k] == old(rows)[k])
      ensures res.Err? ==> rows == old(rows)
      ensures res.Err? && !Wanted(expected, old(Version(key))) ==> res.error == RecordConflict
      ensures res.Err? && Wanted(expected, old(Version(key))) ==> res.error == Raised(change(old(Get(key))).error)
      ensures Data() == if res.Ok? then old(Data())[key := res.value] else old(Data())
    {
      if !Wanted(expected, Version(key)) {
        return Err(RecordConflict);
      }
      var updated := change(Get(key));
      if updated.Err? {
        return Err(Raised(updated.error));
      }
      var value := updated.value;
      var created := if key in rows && rows[key].createdAt != 0.0 then rows[key].createdAt else now;
      rows := rows[key := Row(value, columns(value), created, now, Version(key) + 1)];
      res := Ok(value);
    }

    /** An indexed query answers what decoding and filtering the whole namespace would. */
    method Query(f: Filter, now: real) returns (res: Result<seq<(string, R)>, QueryError>)
      requires Valid()
      ensures res.Err? <==> !(1 <= f.limit <= 1000)
      ensures res.Ok? ==>
        && (forall k :: k in DecodedScan(rows, columns, f, now) ==> k in rows)
        && res.value == Fetch(rows, DecodedScan(rows, columns, f, now))
        && Answers(rows, columns, f, now, DecodedScan(rows, columns, f, now))
    {
      if !(1 <= f.limit <= 1000) {
        return Err(BadLimit);
      }
      var matching := set k | k in rows && SelectsLike(f, now, k, rows[k].columns);
      IndexedIsDecoded(f, now, matching);
      var keys := Truncate(SortKeys(matching), f.limit);
      res := Ok(Fetch(rows, keys));
      ScanAnswers(rows, columns, f, now);
    }

    lemma IndexedIsDecoded(f: Filter, now: real, matching: set<string>)
      requires Valid() && f.limit >= 0
      requires matching == set k | k in rows && SelectsLike(f, now, k, rows[k].columns)
      ensures Truncate(SortKeys(matching), f.limit) == DecodedScan(rows, columns, f, now)
      ensures forall k :: k in DecodedScan(rows, columns, f, now) ==> k in rows
    {
      var meant := set k | k in rows && Selects(f, now, k, columns(rows[k].data));
      forall k | k in rows
        ensures SelectsLike(f, now, k, rows[k].columns) <==> Selects(f, now, k, columns(rows[k].data))
      {
        if f.prefix.Some? { LikePattern.PrefixPatternIsPrefix(f.prefix.value, k); }
      }
      assert matching == meant;
      ScanSelects(rows, columns, f, now);
    }
  }
}
