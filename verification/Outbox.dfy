/**
Terminal outcomes: one current record per subtask, superseded by higher attempts, delivered under a renewable lease,
compacted to a tombstone once delivered and old.
*/
module Outbox {
  import opened Prelude
  import opened Ordering
  import opened RS = RuntimeState

  /** The payload of an outcome: the event, of which the worker reads `success` back, and the state update. */
  datatype Content = Content(success: bool, event: string, update: string)

  datatype Lease = Lease(token: nat, expiresAt: real)

  datatype OutcomeRecord =
    | Absent
    | Live(
        attempt: int,
        fingerprint: string,
        content: Content,
        delivered: bool,
        superseded: Option<int>,
        lease: Option<Lease>,
        nextRetryAt: real,
        deliveryAttempts: nat,
        deliveredAt: real)
    | Tombstone(deliveredAt: real)

  function Fresh(attempt: int, fingerprint: string, content: Content, superseded: Option<int>): OutcomeRecord {
    Live(attempt, fingerprint, content, false, superseded, None, 0.0, 0, 0.0)
  }

  /** The attempt a record answers for; a tombstone dropped it and answers for none. */
  function StoredAttempt(r: OutcomeRecord): int {
    if r.Live? then r.attempt else -1
  }

  /** The current delivery token, if any. */
  function TokenOf(r: OutcomeRecord): Option<nat> {
    if r.Live? && r.lease.Some? then Some(r.lease.value.token) else None
  }

  // ----- The change functions -----

  function StoreChange(was: OutcomeRecord, attempt: int, fingerprint: string, content: Content): OutcomeRecord {
    if was.Absent? then Fresh(attempt, fingerprint, content, None)
    else if attempt <= StoredAttempt(was) then was
    else Fresh(attempt, fingerprint, content, Some(StoredAttempt(was)))
  }

  function ClaimChange(was: OutcomeRecord, token: nat, now: real, ttl: real): OutcomeRecord {
    if !was.Live? || was.delivered || was.nextRetryAt > now || (was.lease.Some? && was.lease.value.expiresAt > now)
    then was
    else was.(lease := Some(Lease(token, now + ttl)), nextRetryAt := now + ttl)
  }

  datatype OwnershipChanged = OwnershipChanged

  function RenewChange(was: OutcomeRecord, token: nat, now: real, ttl: real): Result<OutcomeRecord, OwnershipChanged> {
    if TokenOf(was) != Some(token) then Err(OwnershipChanged)
    else Ok(was.(lease := Some(Lease(token, now + ttl)), nextRetryAt := now + ttl))
  }

  function Pow2(n: nat): nat {
    if n == 0 then 1 else 2 * Pow2(n - 1)
  }

  function Backoff(attempts: nat): nat {
    var delay := Pow2(if attempts < 8 then attempts else 8);
    if delay < 300 then delay else 300
  }

  function FinishChange(was: OutcomeRecord, token: nat, delivered: bool, now: real): OutcomeRecord {
    if TokenOf(was) != Some(token) then was
    else
      var attempts := was.deliveryAttempts + 1;
      was.(lease := None,
           deliveryAttempts := attempts,
           nextRetryAt := if delivered then 0.0 else now + Backoff(attempts) as real,
           delivered := was.delivered || delivered,
           deliveredAt := if delivered then now else was.deliveredAt)
  }

  function CompactChange(was: OutcomeRecord, olderThan: real): OutcomeRecord {
    if was.Live? && was.delivered && was.deliveredAt <= olderThan then Tombstone(was.deliveredAt) else was
  }

  /** Whether a stored outcome already answers a dispatch of this attempt. */
  predicate Settled(r: OutcomeRecord, attempt: int) {
    !r.Absent? && (StoredAttempt(r) >= attempt || (r.Live? && r.content.success))
  }

  // ----- What one store does to settledness -----

  /** After an outcome of attempt `a` was offered, the record settles `a`, whatever was there before. */
  lemma StoreSettles(was: OutcomeRecord, attempt: nat, fingerprint: string, content: Content)
    ensures StoredAttempt(StoreChange(was, attempt, fingerprint, content)) >= attempt
    ensures Settled(StoreChange(was, attempt, fingerprint, content), attempt)
  {
  }

  /**
  A settled dispatch stays settled across another store exactly unless an unsuccessful outcome of an attempt strictly
  between the stored and the dispatched one replaces a success.
  */
  lemma StoreKeepsSettledIff(was: OutcomeRecord, attempt: int, stored: int, fingerprint: string, content: Content)
    requires Settled(was, attempt)
    ensures Settled(StoreChange(was, stored, fingerprint, content), attempt)
        <==> !(StoredAttempt(was) < stored < attempt && !content.success)
  {
  }

  /** Compaction forgets the attempt: what it compacts settles no dispatch any more, what it leaves is untouched. */
  lemma CompactKeepsSettledIff(was: OutcomeRecord, olderThan: real, attempt: nat)
    requires Settled(was, attempt)
    ensures Settled(CompactChange(was, olderThan), attempt)
        <==> !(was.delivered && was.deliveredAt <= olderThan)
  {
  }

  // ----- The outbox over the record store -----

  function OutboxColumns(r: OutcomeRecord): Columns {
    match r
    case Absent => Columns("pending", "", "", 0.0, 0.0)
    case Tombstone(at) => Columns("archived", "", "", 0.0, at)
    case Live(_, _, _, delivered, _, _, retry, _, at) =>
      Columns(if delivered then "delivered" else "pending", "", "", retry, at)
  }

  /** Not delivered, not compacted, and past its retry time. */
  predicate DuePending(r: OutcomeRecord, now: real) {
    match r
    case Absent => now >= 0.0
    case Tombstone(_) => false
    case Live(_, _, _, delivered, _, _, retry, _, _) => !delivered && retry <= now
  }

  lemma PendingColumns(r: OutcomeRecord, now: real)
    ensures OutboxColumns(r).recordState == "pending" && OutboxColumns(r).nextRetryAt <= now <==> DuePending(r, now)
  {
    assert "archived"[0] != "pending"[0] && "delivered"[0] != "pending"[0];
  }

  function PendingPage(limit: int): Filter {
    Filter(Some("pending"), None, false, "", limit, true, None, None, None)
  }

  lemma PendingPageIsExact(rows: map<string, Row<OutcomeRecord>>, limit: nat, now: real, keys: seq<string>)
    requires Answers(rows, OutboxColumns, PendingPage(limit), now, keys)
    ensures forall k :: k in keys ==> k in rows && DuePending(rows[k].data, now)
    ensures |keys| < limit ==> forall k :: k in rows && k != "" && DuePending(rows[k].data, now) ==> k in keys
  {
    forall k | k in rows && k != ""
      ensures Meets(PendingPage(limit), now, k, OutboxColumns(rows[k].data)) <==> DuePending(rows[k].data, now)
    {
      PendingColumns(rows[k].data, now);
    }
  }

  datatype OutcomeClaim = OutcomeClaim(key: string, token: nat, record: OutcomeRecord)

  class OutcomeOutbox {
    const state: RuntimeState<OutcomeRecord>

    ghost predicate Valid()
      reads this, state
    {
      state.Valid() && state.empty == Absent && state.columns == OutboxColumns
    }

    constructor (state: RuntimeState<OutcomeRecord>)
      requires state.Valid() && state.empty == Absent && state.columns == OutboxColumns
      ensures Valid() && this.state == state
    {
      this.state := state;
    }

    method Store(key: string, attempt: int, fingerprint: string, content: Content, now: real) returns (record: OutcomeRecord)
      requires Valid()
      modifies state
      ensures Valid() && record == StoreChange(old(state.Get(key)), attempt, fingerprint, content)
      ensures state.Data() == old(state.Data())[key := record]
    {
      var change: OutcomeRecord -> Result<OutcomeRecord, ()> := r => Ok(StoreChange(r, attempt, fingerprint, content));
      var res := state.Mutate(key, change, None, now);
      record := res.value;
    }

    /**
    The outcomes to replay: undelivered and due, in key order, and all of them unless the page is full. A row that a
    claim of an unknown key left empty is listed too.
    */
    method Pending(limit: int, now: real) returns (res: Result<seq<(string, OutcomeRecord)>, QueryError>)
      requires Valid()
      ensures res.Err? <==> !(1 <= limit <= 1000)
      ensures res.Ok? ==> forall i :: 0 <= i < |res.value| ==>
        res.value[i].0 in state.rows && res.value[i].1 == state.rows[res.value[i].0].data && DuePending(res.value[i].1, now)
      ensures res.Ok? && |res.value| < limit ==> forall k ::
        k in state.rows && k != "" && DuePending(state.rows[k].data, now) ==> (k, state.rows[k].data) in res.value
    {
      res := state.Query(PendingPage(limit), now);
      if res.Ok? {
        ghost var keys := DecodedScan(state.rows, OutboxColumns, PendingPage(limit), now);
        PendingPageIsExact(state.rows, limit, now, keys);
        assert forall i :: 0 <= i < |keys| ==> keys[i] in keys && res.value[i] == (keys[i], state.rows[keys[i]].data);
      }
    }

    /** Takes the delivery lease; `token` is fresh. `None` leaves the content and any other lease alone. */
    method Claim(key: string, token: nat, now: real, ttl: real) returns (claim: Option<OutcomeClaim>)
      requires Valid()
      modifies state
      ensures Valid()
      ensures state.Data() == old(state.Data())[key := ClaimChange(old(state.Get(key)), token, now, ttl)]
      ensures claim == var r := ClaimChange(old(state.Get(key)), token, now, ttl);
        if TokenOf(r) == Some(token) then Some(OutcomeClaim(key, token, r)) else None
    {
      var change: OutcomeRecord -> Result<OutcomeRecord, ()> := r => Ok(ClaimChange(r, token, now, ttl));
      var res := state.Mutate(key, change, None, now);
      claim := if TokenOf(res.value) == Some(token) then Some(OutcomeClaim(key, token, res.value)) else None;
    }

    /** Extends the lease, or raises and changes nothing when the record has another owner. */
    method Renew(claim: OutcomeClaim, now: real, ttl: real) returns (ok: bool)
      requires Valid()
      modifies state
      ensures Valid() && ok == (TokenOf(old(state.Get(claim.key))) == Some(claim.token))
      ensures !ok ==> state.Data() == old(state.Data())
      ensures ok ==>
        state.Data() == old(state.Data())[claim.key := RenewChange(old(state.Get(claim.key)), claim.token, now, ttl).value]
    {
      var change: OutcomeRecord -> Result<OutcomeRecord, OwnershipChanged> := r => RenewChange(r, claim.token, now, ttl);
      var res := state.Mutate(claim.key, change, None, now);
      ok := res.Ok?;
    }

    method Finish(claim: OutcomeClaim, delivered: bool, now: real)
      requires Valid()
      modifies state
      ensures Valid()
      ensures state.Data() ==
        old(state.Data())[claim.key := FinishChange(old(state.Get(claim.key)), claim.token, delivered, now)]
    {
      var change: OutcomeRecord -> Result<OutcomeRecord, ()> := r => Ok(FinishChange(r, claim.token, delivered, now));
      var _ := state.Mutate(claim.key, change, None, now);
    }

    method Compact(key: string, olderThan: real, now: real)
      requires Valid() && key in state.rows
      modifies state
      ensures Valid()
      ensures state.Data() == old(state.Data())[key := CompactChange(old(state.Data())[key], olderThan)]
    {
      var change: OutcomeRecord -> Result<OutcomeRecord, ()> := r => Ok(CompactChange(r, olderThan));
      var _ := state.Mutate(key, change, None, now);
    }

    /** Compacts one page of the records delivered before the limit, and nothing else. */
    method ArchiveDelivered(olderThan: real, limit: int, now: real) returns (count: Option<nat>)
      requires Valid()
      modifies state
      ensures Valid()
      ensures count.None? <==> !(1 <= limit <= 1000)
      ensures count.None? ==> state.Data() == old(state.Data())
      ensures count.Some? ==>
        var keys := DecodedScan(old(state.rows), OutboxColumns, ArchivePage(olderThan, limit), now);
        state.Data() == Compacted(old(state.Data()), keys, olderThan) && count.value == |keys|
    {
      var page := state.Query(ArchivePage(olderThan, limit), now);
      if page.Err? { return None; }
      ghost var keys := DecodedScan(state.rows, OutboxColumns, ArchivePage(olderThan, limit), now);
      ArchivePageHoldsDelivered(state.rows, olderThan, limit, now);
      var n := CompactEach(page.value, keys, olderThan, now);
      count := Some(n);
    }

    /** Compacts the listed records one by one. */
    method CompactEach(page: seq<(string, OutcomeRecord)>, ghost keys: seq<string>, olderThan: real, now: real) returns (n: nat)
      requires Valid()
      requires forall k :: k in keys ==>
        k in state.rows && state.rows[k].data.Live? && state.rows[k].data.deliveredAt <= olderThan
      requires page == Fetch(state.rows, keys)
      modifies state
      ensures Valid() && n == |keys| && state.Data() == Compacted(old(state.Data()), keys, olderThan)
    {
      ghost var before := state.Data();
      assert Compacted(before, keys[..0], olderThan) == before;
      n := 0;
      for i := 0 to |page|
        invariant Valid() && state.Data() == Compacted(before, keys[..i], olderThan) && n == i
      {
        var key, record := page[i].0, page[i].1;
        if record.Live? && record.deliveredAt <= olderThan {
          CompactedStep(before, keys, i, olderThan);
          assert key in state.Data();
          Compact(key, olderThan, now);
          n := n + 1;
        }
      }
      assert keys[..|keys|] == keys;
    }
  }

  function ArchivePage(olderThan: real, limit: int): Filter {
    Filter(Some("delivered"), None, false, "", limit, false, None, None, Some(olderThan))
  }

  function Compacted(records: map<string, OutcomeRecord>, keys: seq<string>, olderThan: real): map<string, OutcomeRecord> {
    map k | k in records :: if k in keys then CompactChange(records[k], olderThan) else records[k]
  }

  lemma CompactedStep(records: map<string, OutcomeRecord>, keys: seq<string>, i: nat, olderThan: real)
    requires i < |keys| && keys[i] in records
    ensures
      var sofar := Compacted(records, keys[..i], olderThan);
      && keys[i] in sofar
      && Compacted(records, keys[..i + 1], olderThan) == sofar[keys[i] := CompactChange(sofar[keys[i]], olderThan)]
  {
    assert keys[..i + 1] == keys[..i] + [keys[i]];
  }

  lemma ArchivePageHoldsDelivered(rows: map<string, Row<OutcomeRecord>>, olderThan: real, limit: nat, now: real)
    ensures
      var keys := DecodedScan(rows, OutboxColumns, ArchivePage(olderThan, limit), now);
      forall k :: k in keys ==> k in rows && rows[k].data.Live? && rows[k].data.delivered && rows[k].data.deliveredAt <= olderThan
  {
    var f := ArchivePage(olderThan, limit);
    ScanSelects(rows, OutboxColumns, f, now);
    forall k | k in DecodedScan(rows, OutboxColumns, f, now)
      ensures k in rows && rows[k].data.Live? && rows[k].data.delivered && rows[k].data.deliveredAt <= olderThan
    {
      DeliveredColumns(rows[k].data);
    }
  }

  lemma DeliveredColumns(r: OutcomeRecord)
    ensures OutboxColumns(r).recordState == "delivered" <==> r.Live? && r.delivered
  {
  }
}
