/**
Who may deliver an outcome, and when: a lease keeps every other worker away until it lapses, a failed delivery keeps
everybody away for the backoff, and otherwise an undelivered outcome can always be claimed.
*/
module Leases {
  import opened Prelude
  import opened RS = RuntimeState
  import opened Outbox
  import opened Delivery

  // ----- When a claim succeeds -----

  /** An undelivered outcome that nobody holds and that is due. */
  predicate Claimable(r: OutcomeRecord, now: real) {
    && r.Live? && !r.delivered
    && r.nextRetryAt <= now
    && (r.lease == None || r.lease.value.expiresAt <= now)
  }

  /** The worker has just claimed this key, with the record as it is now, until a lease from now lapses. */
  predicate Claimed(s: State, t: State, w: nat, key: string, ttl: real) {
    var was, r, p := RecordOf(s, key), RecordOf(t, key), WorkerOf(t, w);
    && p.Holding? && p.key == key && p.record == r
    && was.Live? && r.Live? && r.attempt == was.attempt && r.content == was.content && r.fingerprint == was.fingerprint
    && !r.delivered && r.deliveryAttempts == was.deliveryAttempts
    && r.lease == Some(Lease(p.token, s.now + ttl)) && r.nextRetryAt == s.now + ttl
  }

  lemma ClaimDecides(s: State, w: nat, key: string, ttl: real)
    requires Inv(s) && Enabled(s, Claim(w, key, ttl))
    ensures
      var t := Step(s, Claim(w, key, ttl));
      if Claimable(RecordOf(s, key), s.now) then Claimed(s, t, w, key, ttl)
      else RecordOf(t, key) == RecordOf(s, key) && WorkerOf(t, w).Free?
  {
    if key in s.records { assert RecordOk(s, key, s.records[key]); }
  }

  /** A claim takes the record exactly if it is claimable; otherwise nothing changes and the worker stays free. */
  lemma ClaimSucceedsIff(run: seq<Action>, s: State, w: nat, key: string, ttl: real)
    requires Reaches(START, run, s) && Enabled(s, Claim(w, key, ttl))
    ensures
      var t := Step(s, Claim(w, key, ttl));
      if Claimable(RecordOf(s, key), s.now) then Claimed(s, t, w, key, ttl)
      else RecordOf(t, key) == RecordOf(s, key) && WorkerOf(t, w).Free?
  {
    RunKeepsInv(START, run, s);
    ClaimDecides(s, w, key, ttl);
  }

  // ----- Tokens are held once -----

  ghost predicate HeldOnce(s: State) {
    && (forall w :: w in s.workers && !s.workers[w].Free? ==> s.workers[w].token < s.nextToken)
    && (forall v, w :: v in s.workers && w in s.workers && v != w && !s.workers[v].Free? && !s.workers[w].Free? ==>
          s.workers[v].token != s.workers[w].token)
  }

  lemma StepKeepsHeldOnce(s: State, a: Action)
    requires HeldOnce(s) && Enabled(s, a)
    ensures HeldOnce(Step(s, a))
  {
  }

  // ----- A lease excludes -----

  /** The key is leased under this token at least until `until`. */
  predicate Leased(s: State, key: string, token: nat, attempt: int, until: real) {
    var r := RecordOf(s, key);
    && r.Live? && !r.delivered && r.attempt == attempt
    && r.lease.Some? && r.lease.value.token == token && r.lease.value.expiresAt >= until
  }

  /**
  Nothing in the run ends or shortens the lease of `w` on the key: no finish by it, no higher attempt, no short
  renewal.
  */
  ghost predicate LeaseKept(run: seq<Action>, w: nat, key: string, attempt: int, ttl: real) {
    forall i :: 0 <= i < |run| ==> KeepsLease(run[i], w, key, attempt, ttl)
  }

  predicate KeepsLease(a: Action, w: nat, key: string, attempt: int, ttl: real) {
    match a
    case Finish(v) => v != w
    case Store(k, n, _, _) => k == key ==> n <= attempt
    case Renew(_, d) => d >= ttl
    case _ => true
  }

  /** Only `w` can be holding the token. */
  ghost predicate OnlyHolder(s: State, w: nat, token: nat) {
    token < s.nextToken && forall v :: v in s.workers && v != w && !s.workers[v].Free? ==> s.workers[v].token != token
  }

  lemma StepKeepsLease(s: State, a: Action, w: nat, key: string, token: nat, attempt: int, start: real, ttl: real)
    requires Enabled(s, a) && KeepsLease(a, w, key, attempt, ttl)
    requires OnlyHolder(s, w, token) && Leased(s, key, token, attempt, start + ttl)
    requires start <= s.now && s.now < start + ttl
    ensures OnlyHolder(Step(s, a), w, token) && Leased(Step(s, a), key, token, attempt, start + ttl)
  {
  }

  lemma {:induction false} RunKeepsLease(
    s: State, run: seq<Action>, u: State, w: nat, key: string, token: nat, attempt: int, start: real, ttl: real)
    requires Reaches(s, run, u) && LeaseKept(run, w, key, attempt, ttl)
    requires OnlyHolder(s, w, token) && Leased(s, key, token, attempt, start + ttl)
    requires start <= s.now && u.now < start + ttl
    ensures OnlyHolder(u, w, token) && Leased(u, key, token, attempt, start + ttl)
    decreases run
  {
    if run != [] {
      assert KeepsLease(run[0], w, key, attempt, ttl);
      TimeMovesOn(Step(s, run[0]), run[1..], u);
      TimeMovesOn(s, run, u);
      StepKeepsLease(s, run[0], w, key, token, attempt, start, ttl);
      RunKeepsLease(Step(s, run[0]), run[1..], u, w, key, token, attempt, start, ttl);
    }
  }

  lemma {:induction false} TimeMovesOn(s: State, run: seq<Action>, u: State)
    requires Reaches(s, run, u)
    ensures s.now <= u.now
    decreases run
  {
    if run != [] { TimeMovesOn(Step(s, run[0]), run[1..], u); }
  }

  lemma {:induction false} RunKeepsHeldOnce(s: State, run: seq<Action>, t: State)
    requires HeldOnce(s) && Reaches(s, run, t)
    ensures HeldOnce(t)
    decreases run
  {
    if run != [] {
      StepKeepsHeldOnce(s, run[0]);
      RunKeepsHeldOnce(Step(s, run[0]), run[1..], t);
    }
  }

  /** The step takes or renews the lease of `w` on the key for `ttl`. */
  predicate TakesLease(s: State, a: Action, w: nat, key: string, ttl: real)
    requires Enabled(s, a)
  {
    || (a == Claim(w, key, ttl) && WorkerOf(Step(s, a), w).Holding?)
    || (a == Renew(w, ttl) && WorkerOf(s, w).key == key && TokenOf(RecordOf(s, key)) == Some(WorkerOf(s, w).token))
  }

  /**
  After a claim or a renewal by a worker at some time, and until it finishes or a higher attempt is stored, every claim
  of the key before the lease lapses, by anyone, leaves the record as it is and its caller without a claim.
  */
  lemma LeaseExcludes(before: seq<Action>, s: State, a: Action, w: nat, key: string, ttl: real,
                      run: seq<Action>, u: State, v: nat, d: real)
    requires Reaches(START, before, s) && Enabled(s, a) && TakesLease(s, a, w, key, ttl)
    requires var t := Step(s, a); Reaches(t, run, u) && LeaseKept(run, w, key, StoredAttempt(RecordOf(t, key)), ttl)
    requires u.now < s.now + ttl && Enabled(u, Claim(v, key, d))
    ensures RecordOf(Step(u, Claim(v, key, d)), key) == RecordOf(u, key) && WorkerOf(Step(u, Claim(v, key, d)), v).Free?
    ensures Leased(u, key, TokenOf(RecordOf(Step(s, a), key)).value, StoredAttempt(RecordOf(Step(s, a), key)), s.now + ttl)
  {
    var t := Step(s, a);
    RunKeepsInv(START, before, s);
    RunKeepsHeldOnce(START, before, s);
    StepKeepsInv(s, a);
    StepKeepsHeldOnce(s, a);
    var r := RecordOf(t, key);
    TakenIsLeased(s, a, w, key, ttl);
    RunKeepsLease(t, run, u, w, key, WorkerOf(t, w).token, r.attempt, s.now, ttl);
    RunKeepsInv(t, run, u);
    ClaimDecides(u, v, key, d);
  }

  lemma TakenIsLeased(s: State, a: Action, w: nat, key: string, ttl: real)
    requires Inv(s) && HeldOnce(s) && Enabled(s, a) && TakesLease(s, a, w, key, ttl)
    ensures
      var t := Step(s, a);
      && !WorkerOf(t, w).Free? && TokenOf(RecordOf(t, key)) == Some(WorkerOf(t, w).token)
      && OnlyHolder(t, w, WorkerOf(t, w).token)
      && Leased(t, key, WorkerOf(t, w).token, StoredAttempt(RecordOf(t, key)), s.now + ttl)
  {
    if key in s.records { assert RecordOk(s, key, s.records[key]); }
    StepKeepsHeldOnce(s, a);
  }

  // ----- The backoff -----

  /** The delay after the n-th delivery doubles up to 256 seconds; the bound of 300 is never the smaller one. */
  lemma BackoffDoubles(n: nat)
    ensures Backoff(0) == 1
    ensures n < 8 ==> Backoff(n + 1) == 2 * Backoff(n)
    ensures n >= 8 ==> Backoff(n) == 256
    ensures Backoff(n) <= 256 < 300
  {
    Pow2Values();
    Pow2Grows(if n < 8 then n else 8);
  }

  lemma Pow2Values()
    ensures Pow2(8) == 256
  {
    assert Pow2(4) == 16;
  }

  lemma {:induction false} Pow2Grows(n: nat)
    requires n <= 8
    ensures Pow2(n) <= 256 && (n < 8 ==> Pow2(n + 1) <= 256)
    decreases 8 - n
  {
    Pow2Values();
    if n < 8 { Pow2Grows(n + 1); }
  }

  /** No step of the run stores a higher attempt under the key. */
  ghost predicate NoneHigher(run: seq<Action>, key: string, attempt: int) {
    forall i :: 0 <= i < |run| ==> run[i].Store? && run[i].key == key ==> run[i].attempt <= attempt
  }

  /** Nobody holds the record, and it is not due before `until`. */
  predicate Resting(r: OutcomeRecord, attempt: int, until: real) {
    r.Live? && !r.delivered && r.lease == None && r.attempt == attempt && r.nextRetryAt == until
  }

  lemma {:induction false} RestsUntilDue(s: State, run: seq<Action>, u: State, key: string, attempt: int, until: real)
    requires Reaches(s, run, u) && NoneHigher(run, key, attempt)
    requires Resting(RecordOf(s, key), attempt, until) && u.now < until
    ensures RecordOf(u, key) == RecordOf(s, key)
    decreases run
  {
    if run != [] {
      assert run[0].Store? && run[0].key == key ==> run[0].attempt <= attempt;
      TimeMovesOn(Step(s, run[0]), run[1..], u);
      TimeMovesOn(s, run, u);
      assert RecordOf(Step(s, run[0]), key) == RecordOf(s, key);
      RestsUntilDue(Step(s, run[0]), run[1..], u, key, attempt, until);
    }
  }

  /**
  After a delivery by the holder that was not accepted, the outcome rests: unless a higher attempt is stored, no claim
  of it succeeds before the backoff for its number of deliveries is over, and from then on the first claim does.
  */
  lemma FailedDeliveryRests(before: seq<Action>, s: State, w: nat, run: seq<Action>, u: State, v: nat, d: real)
    requires Reaches(START, before, s) && Enabled(s, Finish(w))
    requires var p := WorkerOf(s, w); TokenOf(RecordOf(s, p.key)) == Some(p.token) && !(p.Sent? && p.accepted)
    requires Reaches(Step(s, Finish(w)), run, u) && Enabled(u, Claim(v, WorkerOf(s, w).key, d))
    requires NoneHigher(run, WorkerOf(s, w).key, StoredAttempt(RecordOf(s, WorkerOf(s, w).key)))
    ensures
      var key := WorkerOf(s, w).key;
      var due := s.now + Backoff(RecordOf(s, key).deliveryAttempts + 1) as real;
      var t, after := Step(s, Finish(w)), Step(u, Claim(v, key, d));
      && RecordOf(t, key).deliveryAttempts == RecordOf(s, key).deliveryAttempts + 1
      && (u.now < due ==> RecordOf(after, key) == RecordOf(u, key) == RecordOf(t, key) && WorkerOf(after, v).Free?)
      && (u.now >= due && RecordOf(u, key) == RecordOf(t, key) ==> Claimed(u, after, v, key, d))
  {
    var key := WorkerOf(s, w).key;
    var t := Step(s, Finish(w));
    RunKeepsInv(START, before, s);
    StepKeepsInv(s, Finish(w));
    RunKeepsInv(t, run, u);
    var due := s.now + Backoff(RecordOf(s, key).deliveryAttempts + 1) as real;
    FinishRests(s, w, key, due);
    if u.now < due { RestsUntilDue(t, run, u, key, RecordOf(s, key).attempt, due); }
    ClaimDecides(u, v, key, d);
  }

  lemma FinishRests(s: State, w: nat, key: string, due: real)
    requires Inv(s) && Enabled(s, Finish(w)) && WorkerOf(s, w).key == key
    requires var p := WorkerOf(s, w); TokenOf(RecordOf(s, key)) == Some(p.token) && !(p.Sent? && p.accepted)
    requires due == s.now + Backoff(RecordOf(s, key).deliveryAttempts + 1) as real
    ensures Resting(RecordOf(Step(s, Finish(w)), key), RecordOf(s, key).attempt, due)
    ensures RecordOf(Step(s, Finish(w)), key).deliveryAttempts == RecordOf(s, key).deliveryAttempts + 1
  {
    assert RecordOk(s, key, s.records[key]);
  }

  // ----- A stored outcome -----

  lemma {:induction false} TimeIsNotNegative(run: seq<Action>, s: State)
    requires Reaches(START, run, s)
    ensures s.now >= 0.0
  {
    TimeMovesOn(START, run, s);
  }

  /**
  An outcome of a higher attempt, or the first one, replaces whatever was stored, undelivered and open to be claimed at
  once; any other offer leaves the record as it is.
  */
  lemma StoreOutcome(before: seq<Action>, s: State, key: string, attempt: nat, fingerprint: string, content: Content)
    requires Reaches(START, before, s)
    ensures
      var was, r := RecordOf(s, key), RecordOf(Step(s, Store(key, attempt, fingerprint, content)), key);
      if was.Live? && was.attempt >= attempt then r == was
      else
        && r.Live? && r.attempt == attempt && r.content == content && r.fingerprint == fingerprint
        && r.superseded == (if was.Absent? then None else if was.Live? then Some(was.attempt) else Some(-1))
        && r.deliveryAttempts == 0 && Claimable(r, s.now)
  {
    TimeIsNotNegative(before, s);
  }

  // ----- Retention -----

  /** A record delivered at this time, as delivered. */
  predicate DeliveredSince(r: OutcomeRecord, attempt: int, at: real) {
    r.Live? && r.delivered && r.attempt == attempt && r.deliveredAt == at && r.lease == None
  }

  /** Nothing in the run stores a higher attempt, or compacts what is as young as this. */
  ghost predicate Retained(run: seq<Action>, key: string, attempt: int, at: real) {
    && NoneHigher(run, key, attempt)
    && forall i :: 0 <= i < |run| ==> run[i].Archive? && run[i].key == key ==> run[i].olderThan < at
  }

  lemma {:induction false} StaysDelivered(s: State, run: seq<Action>, u: State, key: string, attempt: int, at: real)
    requires Reaches(s, run, u) && Retained(run, key, attempt, at) && DeliveredSince(RecordOf(s, key), attempt, at)
    ensures RecordOf(u, key) == RecordOf(s, key)
    decreases run
  {
    if run != [] {
      assert run[0].Store? && run[0].key == key ==> run[0].attempt <= attempt;
      assert run[0].Archive? && run[0].key == key ==> run[0].olderThan < at;
      assert RecordOf(Step(s, run[0]), key) == RecordOf(s, key);
      StaysDelivered(Step(s, run[0]), run[1..], u, key, attempt, at);
    }
  }

  /**
  A confirmed delivery by the holder is kept as it is, with its time, until a compaction reaches that time; the
  compaction that does leaves only the time.
  */
  lemma DeliveryIsRetained(before: seq<Action>, s: State, w: nat, run: seq<Action>, u: State, olderThan: real)
    requires Reaches(START, before, s) && Enabled(s, Finish(w))
    requires var p := WorkerOf(s, w); TokenOf(RecordOf(s, p.key)) == Some(p.token) && p.Sent? && p.accepted
    requires Reaches(Step(s, Finish(w)), run, u)
    requires Retained(run, WorkerOf(s, w).key, StoredAttempt(RecordOf(s, WorkerOf(s, w).key)), s.now)
    ensures
      var key := WorkerOf(s, w).key;
      var was, r := RecordOf(s, key), RecordOf(u, key);
      && DeliveredSince(r, was.attempt, s.now) && r.content == was.content
      && RecordOf(Step(u, Archive(key, olderThan)), key) == if olderThan >= s.now then Tombstone(s.now) else r
  {
    var key := WorkerOf(s, w).key;
    RunKeepsInv(START, before, s);
    assert RecordOk(s, key, s.records[key]);
    StaysDelivered(Step(s, Finish(w)), run, u, key, RecordOf(s, key).attempt, s.now);
  }

  // ----- What is listed as pending can be claimed -----

  /** Every lease lapses no later than the record falls due. */
  ghost predicate LeasesAreDue(s: State) {
    forall k :: k in s.records && s.records[k].Live? && s.records[k].lease.Some? ==>
      s.records[k].lease.value.expiresAt == s.records[k].nextRetryAt
  }

  lemma {:induction false} RunKeepsLeasesDue(s: State, run: seq<Action>, t: State)
    requires LeasesAreDue(s) && Reaches(s, run, t)
    ensures LeasesAreDue(t)
    decreases run
  {
    if run != [] {
      StepKeepsLeasesDue(s, run[0]);
      RunKeepsLeasesDue(Step(s, run[0]), run[1..], t);
    }
  }

  lemma StepKeepsLeasesDue(s: State, a: Action)
    requires LeasesAreDue(s) && Enabled(s, a)
    ensures LeasesAreDue(Step(s, a))
  {
  }

  /**
  The replay loop's listing, by status and due time alone, holds exactly the outcomes whose claim would succeed, and
  the empty rows that a claim of an unknown key leaves behind.
  */
  lemma PendingIffClaimable(run: seq<Action>, s: State, key: string)
    requires Reaches(START, run, s)
    ensures
      var r := RecordOf(s, key);
      var c := OutboxColumns(r);
      c.recordState == "pending" && c.nextRetryAt <= s.now <==> r == Absent || Claimable(r, s.now)
  {
    TimeIsNotNegative(run, s);
    RunKeepsLeasesDue(START, run, s);
  }
}
