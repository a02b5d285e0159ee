/**
Delivery of stored outcomes by many workers at once. Every outbox call is one atomic step; between them workers store,
claim, renew, publish, finish, crash and archive in any order, and time passes.
*/
module Delivery {
  import opened Prelude
  import opened Outbox

  /** A worker between its claim and its finish keeps the record as the claim returned it, and publishes that. */
  datatype Worker =
    | Free
    | Holding(key: string, token: nat, record: OutcomeRecord)
    | Sent(key: string, token: nat, record: OutcomeRecord, accepted: bool)

  datatype Publication = Publication(key: string, attempt: int, content: Content)

  /** `confirmed` is what both recipients confirmed to have applied. `nextToken` stands for fresh random tokens. */
  datatype State = State(
    records: map<string, OutcomeRecord>,
    now: real,
    nextToken: nat,
    workers: map<nat, Worker>,
    confirmed: set<Publication>)

  datatype Action =
    | Tick(to: real)
    | Store(key: string, attempt: nat, fingerprint: string, content: Content)
    | Claim(w: nat, key: string, ttl: real)
    | Renew(w: nat, ttl: real)
    | Publish(w: nat, accepted: bool)
    | Finish(w: nat)
    | Crash(w: nat)
    | Archive(key: string, olderThan: real)

  function RecordOf(s: State, key: string): OutcomeRecord {
    if key in s.records then s.records[key] else Absent
  }

  function WorkerOf(s: State, w: nat): Worker {
    if w in s.workers then s.workers[w] else Free
  }

  predicate Enabled(s: State, a: Action) {
    match a
    case Tick(to) => s.now <= to
    case Store(_, _, _, _) => true
    case Claim(w, _, _) => WorkerOf(s, w).Free?
    case Renew(w, _) => !WorkerOf(s, w).Free?
    case Publish(w, _) => WorkerOf(s, w).Holding? && WorkerOf(s, w).record.Live?
    case Finish(w) => !WorkerOf(s, w).Free?
    case Crash(w) => true
    case Archive(_, _) => true
  }

  function Put(s: State, key: string, r: OutcomeRecord): State {
    s.(records := s.records[key := r])
  }

  function Step(s: State, a: Action): State
    requires Enabled(s, a)
  {
    match a
    case Tick(to) => s.(now := to)
    case Store(key, attempt, fingerprint, content) =>
      Put(s, key, StoreChange(RecordOf(s, key), attempt, fingerprint, content))
    case Claim(w, key, ttl) =>
      var r := ClaimChange(RecordOf(s, key), s.nextToken, s.now, ttl);
      var t := Put(s, key, r).(nextToken := s.nextToken + 1);
      if TokenOf(r) == Some(s.nextToken) then t.(workers := s.workers[w := Holding(key, s.nextToken, r)]) else t
    case Renew(w, ttl) =>
      var p := WorkerOf(s, w);
      (match RenewChange(RecordOf(s, p.key), p.token, s.now, ttl)
       case Err(_) => s
       case Ok(r) => Put(s, p.key, r))
    case Publish(w, accepted) =>
      var p := WorkerOf(s, w);
      s.(workers := s.workers[w := Sent(p.key, p.token, p.record, accepted)],
         confirmed := if accepted then s.confirmed + {Publication(p.key, p.record.attempt, p.record.content)} else s.confirmed)
    case Finish(w) =>
      var p := WorkerOf(s, w);
      Put(s, p.key, FinishChange(RecordOf(s, p.key), p.token, p.Sent? && p.accepted, s.now)).(workers := s.workers[w := Free])
    case Crash(w) => s.(workers := s.workers[w := Free])
    case Archive(key, olderThan) => Put(s, key, CompactChange(RecordOf(s, key), olderThan))
  }

  ghost predicate Reaches(s: State, run: seq<Action>, t: State)
    decreases run
  {
    if run == [] then s == t else Enabled(s, run[0]) && Reaches(Step(s, run[0]), run[1..], t)
  }

  const START := State(map[], 0.0, 0, map[], {})

  // ----- The invariant -----

  /** Tokens in use were handed out before; a delivered record has no lease. */
  ghost predicate RecordOk(s: State, key: string, r: OutcomeRecord) {
    && (TokenOf(r).Some? ==> TokenOf(r).value < s.nextToken && !r.delivered)
    && (r.Live? && r.delivered ==> Publication(key, r.attempt, r.content) in s.confirmed)
  }

  /** While a worker's token is the record's current one, the record still is what the worker claimed. */
  ghost predicate WorkerOk(s: State, p: Worker) {
    !p.Free? ==>
      && p.token < s.nextToken && p.record.Live?
      && (TokenOf(RecordOf(s, p.key)) == Some(p.token) ==>
            RecordOf(s, p.key).attempt == p.record.attempt && RecordOf(s, p.key).content == p.record.content)
      && (p.Sent? && p.accepted ==> Publication(p.key, p.record.attempt, p.record.content) in s.confirmed)
  }

  ghost predicate Inv(s: State) {
    && (forall k :: k in s.records ==> RecordOk(s, k, s.records[k]))
    && (forall w :: w in s.workers ==> WorkerOk(s, s.workers[w]))
  }

  /** How one step may change the record of one key, seen from the tokens that were handed out before it. */
  ghost predicate RecordMoves(s: State, a: Action, key: string)
    requires Enabled(s, a)
  {
    var was, now := RecordOf(s, key), RecordOf(Step(s, a), key);
    TokenOf(now).Some? && TokenOf(now).value < s.nextToken ==>
      TokenOf(was) == TokenOf(now) && was.attempt == now.attempt && was.content == now.content && was.delivered == now.delivered
  }

  lemma OldTokenMeansSameContent(s: State, a: Action, key: string)
    requires Enabled(s, a)
    ensures RecordMoves(s, a, key)
  {
  }

  lemma StepKeepsRecord(s: State, a: Action, key: string)
    requires Inv(s) && Enabled(s, a) && key in Step(s, a).records
    ensures RecordOk(Step(s, a), key, Step(s, a).records[key])
  {
    var t := Step(s, a);
    if key in s.records { assert RecordOk(s, key, s.records[key]); }
    if a.Finish? {
      var p := WorkerOf(s, a.w);
      assert WorkerOk(s, p);
    }
  }

  lemma StepKeepsWorker(s: State, a: Action, w: nat)
    requires Inv(s) && Enabled(s, a) && w in Step(s, a).workers
    ensures WorkerOk(Step(s, a), Step(s, a).workers[w])
  {
    var p := Step(s, a).workers[w];
    if !p.Free? {
      OldTokenMeansSameContent(s, a, p.key);
      if w in s.workers { assert WorkerOk(s, s.workers[w]); }
    }
  }

  lemma StepKeepsInv(s: State, a: Action)
    requires Inv(s) && Enabled(s, a)
    ensures Inv(Step(s, a))
  {
    var t := Step(s, a);
    forall k | k in t.records ensures RecordOk(t, k, t.records[k]) { StepKeepsRecord(s, a, k); }
    forall w | w in t.workers ensures WorkerOk(t, t.workers[w]) { StepKeepsWorker(s, a, w); }
  }

  lemma {:induction false} RunKeepsInv(s: State, run: seq<Action>, t: State)
    requires Inv(s) && Reaches(s, run, t)
    ensures Inv(t)
    decreases run
  {
    if run != [] {
      StepKeepsInv(s, run[0]);
      RunKeepsInv(Step(s, run[0]), run[1..], t);
    }
  }

  // ----- Safety of delivery -----

  /**
  A record becomes delivered only by the finish of the worker that holds its current token, whose publication both
  recipients confirmed, and what that worker published is the record's content and attempt at that moment.
  */
  lemma OnlyTheHolderDelivers(run: seq<Action>, s: State, a: Action, key: string)
    requires Reaches(START, run, s) && Enabled(s, a)
    requires RecordOf(Step(s, a), key).Live? && RecordOf(Step(s, a), key).delivered
    requires !(RecordOf(s, key).Live? && RecordOf(s, key).delivered)
    ensures a.Finish?
    ensures
      var p := WorkerOf(s, a.w);
      var r := RecordOf(Step(s, a), key);
      && p.Sent? && p.accepted && p.key == key && TokenOf(RecordOf(s, key)) == Some(p.token)
      && p.record.Live? && r.attempt == p.record.attempt && r.content == p.record.content
      && Publication(key, r.attempt, r.content) in s.confirmed
  {
    RunKeepsInv(START, run, s);
    assert a.Finish?;
    assert WorkerOk(s, s.workers[a.w]);
  }

  /**
  In every state of every run, archiving included, a record marked delivered was published as it stands and confirmed.
  */
  lemma DeliveredMeansConfirmed(run: seq<Action>, s: State, key: string)
    requires Reaches(START, run, s)
    requires RecordOf(s, key).Live? && RecordOf(s, key).delivered
    ensures Publication(key, RecordOf(s, key).attempt, RecordOf(s, key).content) in s.confirmed
  {
    RunKeepsInv(START, run, s);
    assert RecordOk(s, key, s.records[key]);
  }

  /** A finish whose claim expired and was taken over, or was superseded by a newer attempt, changes no record. */
  lemma StaleFinishIsHarmless(run: seq<Action>, s: State, w: nat)
    requires Reaches(START, run, s) && Enabled(s, Finish(w))
    requires
      var p := WorkerOf(s, w);
      TokenOf(RecordOf(s, p.key)) != Some(p.token) || StoredAttempt(RecordOf(s, p.key)) != StoredAttempt(p.record)
    ensures forall k :: RecordOf(Step(s, Finish(w)), k) == RecordOf(s, k)
  {
    RunKeepsInv(START, run, s);
    assert WorkerOk(s, s.workers[w]);
  }

  // ----- Supersession over runs -----

  /** The later record answers for the same attempt with the same content, or for a higher attempt. */
  predicate Supersedes(was: OutcomeRecord, now: OutcomeRecord) {
    was.Live? ==>
      && now.Live? && now.attempt >= was.attempt
      && (now.attempt == was.attempt ==> now.content == was.content && now.fingerprint == was.fingerprint)
      && (now.attempt == was.attempt && was.delivered ==> now.delivered)
  }

  /** Without archiving, over any run: attempts never go back, and one attempt's content never changes. */
  lemma {:induction false} AttemptsNeverGoBack(s: State, run: seq<Action>, t: State, key: string)
    requires Inv(s) && Reaches(s, run, t)
    requires forall i :: 0 <= i < |run| ==> !run[i].Archive?
    ensures Supersedes(RecordOf(s, key), RecordOf(t, key))
    decreases run
  {
    if run != [] {
      assert !run[0].Archive?;
      StepKeepsInv(s, run[0]);
      StepSupersedes(s, run[0], key);
      AttemptsNeverGoBack(Step(s, run[0]), run[1..], t, key);
    }
  }

  lemma StepSupersedes(s: State, a: Action, key: string)
    requires Inv(s) && Enabled(s, a) && !a.Archive?
    ensures Supersedes(RecordOf(s, key), RecordOf(Step(s, a), key))
  {
  }

  /** With archiving interleaved, an undelivered record is never compacted, and only a store reopens a tombstone. */
  lemma CompactionIsOneWay(s: State, a: Action, key: string)
    requires Enabled(s, a)
    ensures RecordOf(Step(s, a), key).Tombstone? && !RecordOf(s, key).Tombstone? ==>
              a.Archive? && RecordOf(s, key).Live? && RecordOf(s, key).delivered
    ensures RecordOf(s, key).Tombstone? && RecordOf(Step(s, a), key) != RecordOf(s, key) ==>
              a.Store? && RecordOf(Step(s, a), key) == Fresh(a.attempt, a.fingerprint, a.content, Some(-1))
  {
  }
}
