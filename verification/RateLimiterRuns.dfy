/**
The limiter with concurrent callers. A take refills its bucket first and then takes or gives up, and the two are
separate critical sections; so are the slot check, the refund and the slot count. The mutexes make each of them atomic
and nothing more.
*/
module RateLimiterRuns {
  import opened FiniteSets
  import opened RateLimiter

  datatype Caller =
    | Outside
    | Passed(estimate: real)
    | AtRequests(estimate: real)
    | HoldsRequest(estimate: real)
    | AtTokens(estimate: real)
    | Refunding
    | Admitted

  /** `requests` and `tokens` count what was admitted so far. */
  datatype State = State(
    rpm: Bucket,
    tpm: Bucket,
    maxConcurrent: nat,
    active: nat,
    now: real,
    callers: map<nat, Caller>,
    requests: nat,
    tokens: real)

  /**
  Refills by dry checks, wait times and readers are not tied to a caller; those before a take are the caller's own.
  */
  datatype Action =
    | Tick(to: real)
    | RefillRpm
    | RefillTpm
    | CheckSlot(estimate: real)
    | GoToRequests
    | TakeRequest
    | GiveUpRequest
    | GoToTokens
    | TakeTokens
    | GiveUpTokens
    | RefundRequest
    | CountSlot
    | ReleaseSlot

  function CallerOf(s: State, c: nat): Caller {
    if c in s.callers then s.callers[c] else Outside
  }

  predicate Enabled(s: State, c: nat, a: Action) {
    var x := CallerOf(s, c);
    match a
    case Tick(to) => s.now <= to
    case RefillRpm => true
    case RefillTpm => true
    case CheckSlot(estimate) => x.Outside? && s.active < s.maxConcurrent && estimate >= 0.0
    case GoToRequests => x.Passed?
    case TakeRequest => x.AtRequests? && s.rpm.tokens >= 1.0
    case GiveUpRequest => x.AtRequests? && s.rpm.tokens < 1.0
    case GoToTokens => x.HoldsRequest?
    case TakeTokens => x.AtTokens? && s.tpm.tokens >= x.estimate
    case GiveUpTokens => x.AtTokens? && s.tpm.tokens < x.estimate
    case RefundRequest => x.Refunding?
    case CountSlot => x.Admitted?
    case ReleaseSlot => s.active > 0
  }

  function Goto(s: State, c: nat, x: Caller): State {
    s.(callers := s.callers[c := x])
  }

  function Step(s: State, c: nat, a: Action): State
    requires Enabled(s, c, a)
  {
    var x := CallerOf(s, c);
    match a
    case Tick(to) => s.(now := to)
    case RefillRpm => s.(rpm := Refill(s.rpm, s.now))
    case RefillTpm => s.(tpm := Refill(s.tpm, s.now))
    case CheckSlot(estimate) => Goto(s, c, Passed(estimate))
    case GoToRequests => Goto(s, c, AtRequests(x.estimate)).(rpm := Refill(s.rpm, s.now))
    case TakeRequest => Goto(s, c, HoldsRequest(x.estimate)).(rpm := s.rpm.(tokens := s.rpm.tokens - 1.0))
    case GiveUpRequest => Goto(s, c, Outside)
    case GoToTokens => Goto(s, c, AtTokens(x.estimate)).(tpm := Refill(s.tpm, s.now))
    case TakeTokens =>
      Goto(s, c, Admitted).(
        tpm := s.tpm.(tokens := s.tpm.tokens - x.estimate), requests := s.requests + 1, tokens := s.tokens + x.estimate)
    case GiveUpTokens => Goto(s, c, Refunding)
    case RefundRequest => Goto(s, c, Outside).(rpm := Refund(s.rpm, 1.0))
    case CountSlot => Goto(s, c, Outside).(active := s.active + 1)
    case ReleaseSlot => s.(active := s.active - 1)
  }

  ghost predicate Reaches(s: State, run: seq<(nat, Action)>, t: State)
    decreases run
  {
    if run == [] then s == t
    else Enabled(s, run[0].0, run[0].1) && Reaches(Step(s, run[0].0, run[0].1), run[1..], t)
  }

  // ----- Counting callers -----

  predicate Holds(x: Caller) {
    x.HoldsRequest? || x.AtTokens? || x.Refunding?
  }

  /** Callers that took a request and are neither admitted nor refunded yet. */
  function Holding(s: State): set<nat> {
    set c | c in s.callers && Holds(s.callers[c])
  }

  /** Callers that refilled the request bucket and have not taken or given up yet. */
  function Ready(s: State): set<nat> {
    set c | c in s.callers && s.callers[c].AtRequests?
  }

  /** Callers past the slot check that have not counted their slot yet. */
  function Inside(s: State): set<nat> {
    set c | c in s.callers && !s.callers[c].Outside?
  }

  function One(b: bool): int {
    if b then 1 else 0
  }

  lemma CallersByOne(s: State, c: nat, a: Action)
    requires Enabled(s, c, a)
    ensures
      var t := Step(s, c, a);
      var x, y := CallerOf(s, c), CallerOf(t, c);
      && |Holding(t)| == |Holding(s)| + One(Holds(y)) - One(Holds(x))
      && |Ready(t)| == |Ready(s)| + One(y.AtRequests?) - One(x.AtRequests?)
      && |Inside(t)| == |Inside(s)| + One(!y.Outside?) - One(!x.Outside?)
  {
    var t := Step(s, c, a);
    SizeByOne(Holding(t), Holding(s), c);
    SizeByOne(Ready(t), Ready(s), c);
    SizeByOne(Inside(t), Inside(s), c);
  }

  // ----- The slot count -----

  /** At most `n` callers call at once. */
  ghost predicate AtMost(s: State, n: nat) {
    forall c :: c in s.callers ==> c < n
  }

  ghost predicate SlotsOk(s: State, n: nat) {
    n >= 1 && AtMost(s, n) && s.active + |Inside(s)| <= s.maxConcurrent + n - 1
  }

  lemma {:induction false} IdsBounded(ids: set<nat>, n: nat)
    requires forall c :: c in ids ==> c < n
    ensures |ids| <= n
  {
    if n == 0 {
      assert ids == {};
    } else {
      IdsBounded(ids - {n - 1}, n - 1);
      assert n - 1 in ids ==> ids == (ids - {n - 1}) + {n - 1};
      assert n - 1 !in ids ==> ids == ids - {n - 1};
    }
  }

  lemma StepKeepsSlots(s: State, c: nat, a: Action, n: nat)
    requires SlotsOk(s, n) && c < n && Enabled(s, c, a)
    ensures SlotsOk(Step(s, c, a), n)
  {
    CallersByOne(s, c, a);
    if a.CheckSlot? { IdsBounded(Inside(Step(s, c, a)), n); }
  }

  ghost predicate CallersBelow(run: seq<(nat, Action)>, n: nat) {
    forall i :: 0 <= i < |run| ==> run[i].0 < n
  }

  /**
  With `n` concurrent callers the active count never exceeds the limit by more than `n - 1`; serial calls never exceed
  it.
  */
  lemma {:induction false} ActiveBound(s: State, run: seq<(nat, Action)>, t: State, n: nat)
    requires SlotsOk(s, n) && Reaches(s, run, t) && CallersBelow(run, n)
    ensures SlotsOk(t, n) && t.maxConcurrent == s.maxConcurrent && t.active <= s.maxConcurrent + n - 1
    decreases run
  {
    if run != [] {
      assert run[0].0 < n;
      StepKeepsSlots(s, run[0].0, run[0].1, n);
      ActiveBound(Step(s, run[0].0, run[0].1), run[1..], t, n);
    }
  }

  // ----- Admission between two points of a run -----

  predicate EstimateOk(x: Caller) {
    x.Outside? || x.Refunding? || x.Admitted? || x.estimate >= 0.0
  }

  ghost predicate BucketsOk(s: State) {
    && BucketOk(s.rpm, s.now) && BucketOk(s.tpm, s.now)
    && forall c :: c in s.callers ==> EstimateOk(s.callers[c])
  }

  lemma StepKeepsBuckets(s: State, c: nat, a: Action)
    requires BucketsOk(s) && Enabled(s, c, a)
    ensures BucketsOk(Step(s, c, a)) && Step(s, c, a).now >= s.now
    ensures SameSize(s.rpm, Step(s, c, a).rpm) && SameSize(s.tpm, Step(s, c, a).tpm)
  {
    EarnedAdds(s.rpm.rate, s.rpm.last, s.now, s.now);
    EarnedAdds(s.tpm.rate, s.tpm.last, s.now, s.now);
  }

  predicate SameSize(a: Bucket, b: Bucket) {
    a.capacity == b.capacity && a.rate == b.rate
  }

  /**
  How a bucket stands since time `from`, when `before` was spent or due. `spent` is what was taken and not given back,
  `due` what is about to be taken without another refill. Until a refill only what is due can still be spent; after
  one, spending and what is left are covered by the capacity and what time earned.
  */
  ghost predicate Owes(b: Bucket, from: real, spent: real, due: real, before: real) {
    if b.last < from then spent + due <= before
    else spent + b.tokens - Earned(b.rate, from, b.last) <= before + b.capacity
  }

  /** A refill at or after `from`. */
  lemma RefillOwes(b: Bucket, from: real, now: real, spent: real, due: real, before: real)
    requires Owes(b, from, spent, due, before) && BucketOk(b, now) && from <= now && due >= 0.0
    ensures Owes(Refill(b, now), from, spent, due, before)
  {
    EarnedAdds(b.rate, from, b.last, now);
    EarnedAdds(b.rate, from, now, now);
  }

  /** A take by someone who was due, or a gift back: what was spent and what is left move together. */
  lemma MoveOwes(b: Bucket, tokens: real, from: real, spent: real, due: real, before: real, spent': real, due': real)
    requires Owes(b, from, spent, due, before)
    requires spent' + due' <= spent + due && spent' + tokens <= spent + b.tokens
    ensures Owes(b.(tokens := tokens), from, spent', due', before)
  {
  }

  function RequestsSpent(s: State): real {
    (s.requests + |Holding(s)|) as real
  }

  function RequestsDue(s: State): real {
    |Ready(s)| as real
  }

  lemma StepKeepsRequestsOwed(s: State, c: nat, a: Action, from: real, before: real)
    requires BucketsOk(s) && Enabled(s, c, a) && from <= s.now
    requires Owes(s.rpm, from, RequestsSpent(s), RequestsDue(s), before)
    ensures var t := Step(s, c, a); Owes(t.rpm, from, RequestsSpent(t), RequestsDue(t), before)
  {
    var t := Step(s, c, a);
    CallersByOne(s, c, a);
    if a.RefillRpm? {
      RefillOwes(s.rpm, from, s.now, RequestsSpent(s), RequestsDue(s), before);
    } else if a.GoToRequests? {
      RefillOwes(s.rpm, from, s.now, RequestsSpent(s), RequestsDue(s), before);
    } else {
      MoveOwes(s.rpm, t.rpm.tokens, from, RequestsSpent(s), RequestsDue(s), before, RequestsSpent(t), RequestsDue(t));
    }
  }

  /** What callers that refilled the token bucket and did not take yet are about to take. */
  function Weight(x: Caller): real {
    if x.AtTokens? then x.estimate else 0.0
  }

  function TokensDue(s: State, n: nat): real {
    if n == 0 then 0.0 else TokensDue(s, n - 1) + Weight(CallerOf(s, n - 1))
  }

  lemma {:induction false} TokensDueByOne(s: State, t: State, c: nat, n: nat)
    requires forall d :: d != c ==> CallerOf(t, d) == CallerOf(s, d)
    ensures TokensDue(t, n) == TokensDue(s, n) + (if c < n then Weight(CallerOf(t, c)) - Weight(CallerOf(s, c)) else 0.0)
  {
    if n > 0 { TokensDueByOne(s, t, c, n - 1); }
  }

  lemma {:induction false} TokensDueNotNegative(s: State, n: nat)
    requires BucketsOk(s)
    ensures TokensDue(s, n) >= 0.0
  {
    if n > 0 { TokensDueNotNegative(s, n - 1); }
  }

  lemma StepKeepsTokensOwed(s: State, c: nat, a: Action, n: nat, from: real, before: real)
    requires BucketsOk(s) && Enabled(s, c, a) && from <= s.now && c < n
    requires Owes(s.tpm, from, s.tokens, TokensDue(s, n), before)
    ensures var t := Step(s, c, a); Owes(t.tpm, from, t.tokens, TokensDue(t, n), before)
  {
    var t := Step(s, c, a);
    TokensDueByOne(s, t, c, n);
    TokensDueNotNegative(s, n);
    if a.RefillTpm? || a.GoToTokens? {
      RefillOwes(s.tpm, from, s.now, s.tokens, TokensDue(s, n), before);
    } else {
      MoveOwes(s.tpm, t.tpm.tokens, from, s.tokens, TokensDue(s, n), before, t.tokens, TokensDue(t, n));
    }
  }

  lemma {:induction false} RunKeepsOwed(s: State, run: seq<(nat, Action)>, t: State, n: nat, from: real, r: real, k: real)
    requires BucketsOk(s) && Reaches(s, run, t) && from <= s.now && CallersBelow(run, n)
    requires Owes(s.rpm, from, RequestsSpent(s), RequestsDue(s), r) && Owes(s.tpm, from, s.tokens, TokensDue(s, n), k)
    ensures BucketsOk(t) && SameSize(s.rpm, t.rpm) && SameSize(s.tpm, t.tpm)
    ensures Owes(t.rpm, from, RequestsSpent(t), RequestsDue(t), r) && Owes(t.tpm, from, t.tokens, TokensDue(t, n), k)
    decreases run
  {
    if run != [] {
      assert run[0].0 < n;
      StepKeepsBuckets(s, run[0].0, run[0].1);
      StepKeepsRequestsOwed(s, run[0].0, run[0].1, from, r);
      StepKeepsTokensOwed(s, run[0].0, run[0].1, n, from, k);
      RunKeepsOwed(Step(s, run[0].0, run[0].1), run[1..], t, n, from, r, k);
    }
  }

  /** At the first point nothing was spent since. */
  lemma OwesAtStart(b: Bucket, now: real, spent: real, due: real)
    requires BucketOk(b, now) && due >= 0.0
    ensures Owes(b, now, spent, due, spent + due)
  {
    EarnedAdds(b.rate, now, now, now);
  }

  /** Whatever is owed at the end is within capacity and earnings. */
  lemma OwesAtEnd(b: Bucket, from: real, now: real, spent: real, due: real, before: real)
    requires Owes(b, from, spent, due, before) && BucketOk(b, now) && from <= now && due >= 0.0
    ensures spent <= before + b.capacity + Earned(b.rate, from, now)
  {
    EarnedAdds(b.rate, from, b.last, now);
    EarnedAdds(b.rate, b.last, now, now);
    EarnedAdds(b.rate, from, now, now);
  }

  /**
  Under any interleaving, what is admitted between two points is at most the capacity plus what that time earns, plus
  what callers had in hand at the first point: requests taken and undecided, and takes whose refill was already done.
  */
  lemma AdmissionBound(s: State, run: seq<(nat, Action)>, t: State, n: nat)
    requires BucketsOk(s) && Reaches(s, run, t) && CallersBelow(run, n)
    ensures (t.requests - s.requests) as real
         <= s.rpm.capacity + Earned(s.rpm.rate, s.now, t.now) + (|Holding(s)| + |Ready(s)|) as real
    ensures t.tokens - s.tokens <= s.tpm.capacity + Earned(s.tpm.rate, s.now, t.now) + TokensDue(s, n)
  {
    TokensDueNotNegative(s, n);
    OwesAtStart(s.rpm, s.now, RequestsSpent(s), RequestsDue(s));
    OwesAtStart(s.tpm, s.now, s.tokens, TokensDue(s, n));
    RunKeepsOwed(s, run, t, n, s.now, RequestsSpent(s) + RequestsDue(s), s.tokens + TokensDue(s, n));
    TokensDueNotNegative(t, n);
    TimeMovesOn(s, run, t);
    OwesAtEnd(t.rpm, s.now, t.now, RequestsSpent(t), RequestsDue(t), RequestsSpent(s) + RequestsDue(s));
    OwesAtEnd(t.tpm, s.now, t.now, t.tokens, TokensDue(t, n), s.tokens + TokensDue(s, n));
  }

  lemma {:induction false} TimeMovesOn(s: State, run: seq<(nat, Action)>, t: State)
    requires Reaches(s, run, t)
    ensures s.now <= t.now
    decreases run
  {
    if run != [] { TimeMovesOn(Step(s, run[0].0, run[0].1), run[1..], t); }
  }

  // ----- A call on its own is the serial acquire -----

  lemma {:induction false} ReachesAppend(s: State, a: seq<(nat, Action)>, m: State, b: seq<(nat, Action)>, t: State)
    requires Reaches(s, a, m) && Reaches(m, b, t)
    ensures Reaches(s, a + b, t)
    decreases a
  {
    if a == [] {
      assert a + b == b;
    } else {
      assert (a + b)[1..] == a[1..] + b;
      ReachesAppend(Step(s, a[0].0, a[0].1), a[1..], m, b, t);
    }
  }

  lemma TwoSteps(s: State, c: nat, a: Action, b: Action) returns (run: seq<(nat, Action)>, t: State)
    requires Enabled(s, c, a) && Enabled(Step(s, c, a), c, b)
    ensures Reaches(s, run, t) && t == Step(Step(s, c, a), c, b)
  {
    var m := Step(s, c, a);
    t := Step(m, c, b);
    run := [(c, a), (c, b)];
    assert Reaches(t, [], t);
    assert Reaches(m, run[1..], t) by { assert run[1..][1..] == []; }
  }

  /** The state is what the limiter shows, and this caller is not inside. */
  predicate Shows(s: State, l: Limiter, c: nat) {
    && s.rpm == l.rpm && s.tpm == l.tpm && s.maxConcurrent == l.maxConcurrent && s.active == l.active
    && s.requests == l.totalRequests && CallerOf(s, c).Outside?
  }

  /** One call with nothing in between takes the limiter exactly where the serial acquire takes it. */
  lemma SerialCallIsAcquire(s: State, l: Limiter, c: nat, estimate: real) returns (run: seq<(nat, Action)>, t: State)
    requires Shows(s, l, c) && estimate >= 0.0
    ensures
      var (after, verdict) := TryAcquire(l, estimate, s.now);
      && Reaches(s, run, t) && t.now == s.now && Shows(t, after, c)
      && t.tokens == s.tokens + (if verdict == Acquired then estimate else 0.0)
  {
    if s.active >= s.maxConcurrent {
      run, t := [], s;
    } else {
      var a, m := TwoSteps(s, c, CheckSlot(estimate), GoToRequests);
      var b;
      if m.rpm.tokens < 1.0 {
        b, t := TwoSteps(m, c, GiveUpRequest, RefillRpm);
      } else {
        b, t := SerialTokens(m, c, estimate);
      }
      run := a + b;
      ReachesAppend(s, a, m, b, t);
    }
  }

  lemma SerialTokens(s: State, c: nat, estimate: real) returns (run: seq<(nat, Action)>, t: State)
    requires CallerOf(s, c) == AtRequests(estimate) && s.rpm.tokens >= 1.0
    ensures Reaches(s, run, t) && CallerOf(t, c).Outside? && t.now == s.now && t.maxConcurrent == s.maxConcurrent
    ensures
      var rpm, tpm := s.rpm.(tokens := s.rpm.tokens - 1.0), Refill(s.tpm, s.now);
      if tpm.tokens >= estimate then
        && t.rpm == rpm && t.tpm == tpm.(tokens := tpm.tokens - estimate)
        && t.active == s.active + 1 && t.requests == s.requests + 1 && t.tokens == s.tokens + estimate
      else
        && t.rpm == Refund(rpm, 1.0) && t.tpm == Refill(tpm, s.now)
        && t.active == s.active && t.requests == s.requests && t.tokens == s.tokens
  {
    var a, m := TwoSteps(s, c, TakeRequest, GoToTokens);
    var b;
    if m.tpm.tokens >= estimate {
      b, t := TwoSteps(m, c, TakeTokens, CountSlot);
    } else {
      b, t := SerialRejection(m, c);
    }
    run := a + b;
    ReachesAppend(s, a, m, b, t);
  }

  lemma SerialRejection(s: State, c: nat) returns (run: seq<(nat, Action)>, t: State)
    requires CallerOf(s, c).AtTokens? && s.tpm.tokens < CallerOf(s, c).estimate
    ensures Reaches(s, run, t) && CallerOf(t, c).Outside?
    ensures t == s.(rpm := Refund(s.rpm, 1.0), tpm := Refill(s.tpm, s.now), callers := t.callers)
  {
    var a, m := TwoSteps(s, c, GiveUpTokens, RefillTpm);
    t := Step(m, c, RefundRequest);
    var b: seq<(nat, Action)> := [(c, RefundRequest)];
    assert Reaches(m, b, t) by { assert b[1..] == [] && Reaches(t, [], t); }
    run := a + b;
    ReachesAppend(s, a, m, b, t);
  }

  // ----- Both extra terms are needed -----

  /** A bucket of one per minute. */
  predicate Minutely(b: Bucket, tokens: real, last: real) {
    b == Bucket(1.0, 1.0 / 60.0, tokens, last)
  }

  lemma MinutelyRefill(b: Bucket, tokens: real, last: real, now: real)
    requires Minutely(b, tokens, last) && 0.0 <= tokens <= 1.0 && last <= now
    requires tokens == 1.0 || now == last + 60.0
    ensures Minutely(Refill(b, now), 1.0, now)
  {
    assert Earned(b.rate, last, now) == (now - last) / 60.0;
  }

  /** A new limiter of one request and one token per minute. */
  predicate New(s: State) {
    Minutely(s.rpm, 1.0, s.now) && Minutely(s.tpm, 1.0, s.now) && s.active == 0 < s.maxConcurrent && s.callers == map[]
  }

  /** The parts of a state that the runs below do not touch. */
  predicate Beside(s: State, t: State) {
    s.active == t.active && s.maxConcurrent == t.maxConcurrent && s.now == t.now
  }

  lemma Arrive(s: State, c: nat, estimate: real) returns (run: seq<(nat, Action)>, t: State)
    requires CallerOf(s, c).Outside? && s.active < s.maxConcurrent && estimate >= 0.0
    requires Minutely(Refill(s.rpm, s.now), 1.0, s.now)
    ensures Reaches(s, run, t) && Beside(s, t) && t.tpm == s.tpm && t.requests == s.requests
    ensures Minutely(t.rpm, 1.0, s.now) && t.callers == s.callers[c := AtRequests(estimate)]
  {
    var s1 := Step(s, c, CheckSlot(estimate));
    t := Step(s1, c, GoToRequests);
    run := [(c, CheckSlot(estimate)), (c, GoToRequests)];
    assert Reaches(t, [], t);
    assert Reaches(s1, run[1..], t) by { assert run[1..][1..] == []; }
    assert t.callers == s.callers[c := AtRequests(estimate)];
  }

  lemma TakeBoth(s: State, c: nat) returns (run: seq<(nat, Action)>, t: State)
    requires CallerOf(s, c) == AtRequests(0.0)
    requires Minutely(s.rpm, 1.0, s.rpm.last) && Minutely(Refill(s.tpm, s.now), 1.0, s.now)
    ensures Reaches(s, run, t) && Beside(s, t) && t.requests == s.requests + 1
    ensures Minutely(t.rpm, 0.0, s.rpm.last) && Minutely(t.tpm, 1.0, s.now) && t.callers == s.callers[c := Admitted]
  {
    var s1 := Step(s, c, TakeRequest);
    var s2 := Step(s1, c, GoToTokens);
    t := Step(s2, c, TakeTokens);
    run := [(c, TakeRequest), (c, GoToTokens), (c, TakeTokens)];
    assert Reaches(t, [], t);
    assert Reaches(s2, run[2..], t) by { assert run[2..][1..] == []; }
    assert Reaches(s1, run[1..], t) by { assert run[1..][1..] == run[2..]; }
    assert t.callers == s.callers[c := Admitted];
  }

  /** A caller that asks for no tokens goes through alone: it takes one request. */
  lemma GoThrough(s: State, c: nat) returns (run: seq<(nat, Action)>, t: State)
    requires CallerOf(s, c).Outside? && s.active < s.maxConcurrent
    requires Minutely(Refill(s.rpm, s.now), 1.0, s.now) && Minutely(Refill(s.tpm, s.now), 1.0, s.now)
    ensures Reaches(s, run, t) && Beside(s, t) && t.requests == s.requests + 1
    ensures Minutely(t.rpm, 0.0, s.now) && Minutely(t.tpm, 1.0, s.now) && t.callers == s.callers[c := Admitted]
  {
    var a, m := Arrive(s, c, 0.0);
    var b;
    b, t := TakeBoth(m, c);
    run := a + b;
    ReachesAppend(s, a, m, b, t);
    assert m.callers[c := Admitted] == s.callers[c := Admitted];
  }

  lemma GiveBack(s: State, c: nat) returns (run: seq<(nat, Action)>, t: State)
    requires CallerOf(s, c) == HoldsRequest(2.0)
    requires Minutely(s.rpm, 0.0, s.now) && Minutely(Refill(s.tpm, s.now), 1.0, s.now)
    ensures Reaches(s, run, t) && Beside(s, t) && t.requests == s.requests
    ensures Minutely(t.rpm, 1.0, s.now) && Minutely(t.tpm, 1.0, s.now) && t.callers == s.callers[c := Outside]
  {
    var s1 := Step(s, c, GoToTokens);
    var s2 := Step(s1, c, GiveUpTokens);
    t := Step(s2, c, RefundRequest);
    run := [(c, GoToTokens), (c, GiveUpTokens), (c, RefundRequest)];
    assert Reaches(t, [], t);
    assert Reaches(s2, run[2..], t) by { assert run[2..][1..] == []; }
    assert Reaches(s1, run[1..], t) by { assert run[1..][1..] == run[2..]; }
    assert t.callers == s.callers[c := Outside];
  }

  /** Somebody refills, and a minute passes. */
  lemma AMinutePasses(s: State, c: nat, a: Action) returns (run: seq<(nat, Action)>, t: State)
    requires Enabled(s, c, a)
    ensures Reaches(s, run, t) && t == Step(s, c, a).(now := Step(s, c, a).now + 60.0)
  {
    var s1 := Step(s, c, a);
    t := Step(s1, c, Tick(s1.now + 60.0));
    run := [(c, a), (c, Tick(s1.now + 60.0))];
    assert Reaches(t, [], t);
    assert Reaches(s1, run[1..], t) by { assert run[1..][1..] == []; }
  }

  /** An undecided request: taken in the first minute, and still without its tokens in the second. */
  lemma HoldForAMinute(s0: State) returns (run: seq<(nat, Action)>, s: State)
    requires New(s0)
    ensures Reaches(s0, run, s) && s.active == s0.active && s.maxConcurrent == s0.maxConcurrent && s.now == s0.now + 60.0
    ensures Minutely(s.rpm, 0.0, s0.now) && Minutely(s.tpm, 1.0, s0.now) && s.callers == map[0 := HoldsRequest(2.0)]
  {
    MinutelyRefill(s0.rpm, 1.0, s0.now, s0.now);
    var a, m := Arrive(s0, 0, 2.0);
    var b;
    b, s := AMinutePasses(m, 0, TakeRequest);
    run := a + b;
    ReachesAppend(s0, a, m, b, s);
    assert s.callers == map[0 := HoldsRequest(2.0)];
  }

  /** With the old hold still out: one goes through, the hold is given back, another goes through. */
  lemma OneGivesBack(s: State) returns (run: seq<(nat, Action)>, t: State)
    requires s.callers == map[0 := HoldsRequest(2.0), 1 := Admitted] && s.active < s.maxConcurrent
    requires Minutely(s.rpm, 0.0, s.now) && Minutely(s.tpm, 1.0, s.now)
    ensures Reaches(s, run, t) && t.now == s.now && t.requests == s.requests + 1
  {
    MinutelyRefill(s.tpm, 1.0, s.now, s.now);
    var a, m := GiveBack(s, 0);
    MinutelyRefill(m.rpm, 1.0, s.now, s.now);
    var b;
    b, t := GoThrough(m, 2);
    run := a + b;
    ReachesAppend(s, a, m, b, t);
  }

  /**
  A request held from before counts: on a limiter of one request per minute, an old hold is refunded between two
  others, and two requests are admitted at a single instant with nobody due.
  */
  lemma RefundLetsOneMoreThrough(s0: State)
    returns (before: seq<(nat, Action)>, s: State, run: seq<(nat, Action)>, t: State)
    requires New(s0)
    ensures Reaches(s0, before, s) && Reaches(s, run, t)
    ensures Ready(s) == {} && |Holding(s)| == 1 && t.now == s.now && t.requests == s.requests + 2
  {
    before, s := HoldForAMinute(s0);
    assert Holding(s) == {0};
    MinutelyRefill(s.rpm, 0.0, s0.now, s.now);
    MinutelyRefill(s.tpm, 1.0, s0.now, s.now);
    var a, m := GoThrough(s, 1);
    assert m.callers == map[0 := HoldsRequest(2.0), 1 := Admitted];
    var b;
    b, t := OneGivesBack(m);
    run := a + b;
    ReachesAppend(s, a, m, b, t);
  }

  lemma WaitAtRequests(s0: State) returns (run: seq<(nat, Action)>, s: State)
    requires New(s0)
    ensures Reaches(s0, run, s) && s.now == s0.now + 60.0 && s.requests == s0.requests
    ensures Minutely(s.rpm, 1.0, s0.now) && Minutely(s.tpm, 1.0, s0.now)
    ensures s.callers == map[1 := AtRequests(0.0), 2 := AtRequests(0.0)]
  {
    MinutelyRefill(s0.rpm, 1.0, s0.now, s0.now);
    var a, m := Arrive(s0, 1, 0.0);
    MinutelyRefill(m.rpm, 1.0, s0.now, s0.now);
    var b;
    b, s := ArriveAndWait(m, 2);
    run := a + b;
    ReachesAppend(s0, a, m, b, s);
    assert s.callers == map[1 := AtRequests(0.0), 2 := AtRequests(0.0)];
  }

  lemma ArriveAndWait(s: State, c: nat) returns (run: seq<(nat, Action)>, t: State)
    requires CallerOf(s, c).Outside? && s.active < s.maxConcurrent && Minutely(Refill(s.rpm, s.now), 1.0, s.now)
    ensures Reaches(s, run, t) && t.now == s.now + 60.0 && t.tpm == s.tpm && t.requests == s.requests
    ensures Minutely(t.rpm, 1.0, s.now) && t.callers == s.callers[c := AtRequests(0.0)]
  {
    var a, m := Arrive(s, c, 0.0);
    MinutelyRefill(m.rpm, 1.0, s.now, s.now);
    var b;
    b, t := AMinutePasses(m, c, RefillRpm);
    run := a + b;
    ReachesAppend(s, a, m, b, t);
  }

  lemma RefillAndTake(s: State, c: nat) returns (run: seq<(nat, Action)>, t: State)
    requires CallerOf(s, c) == AtRequests(0.0)
    requires Minutely(Refill(s.rpm, s.now), 1.0, s.now) && Minutely(Refill(s.tpm, s.now), 1.0, s.now)
    ensures Reaches(s, run, t) && t.now == s.now && t.requests == s.requests + 1
  {
    var m := Step(s, c, RefillRpm);
    var rest;
    rest, t := TakeBoth(m, c);
    run := [(c, RefillRpm)] + rest;
    assert run[1..] == rest;
  }

  /**
  A take whose refill lies in the past counts too: two callers refill, a minute passes, one takes what was there, a
  refill for someone else lands, and the other takes as well. Two are admitted at a single instant with nothing held.
  */
  lemma LateTakeLetsOneMoreThrough(s0: State)
    returns (before: seq<(nat, Action)>, s: State, run: seq<(nat, Action)>, t: State)
    requires New(s0)
    ensures Reaches(s0, before, s) && Reaches(s, run, t)
    ensures Holding(s) == {} && |Ready(s)| == 2 && t.now == s.now && t.requests == s.requests + 2
  {
    before, s := WaitAtRequests(s0);
    assert Ready(s) == {1, 2};
    MinutelyRefill(s.tpm, 1.0, s0.now, s.now);
    var a, m := TakeBoth(s, 1);
    MinutelyRefill(m.rpm, 0.0, s0.now, s.now);
    MinutelyRefill(m.tpm, 1.0, s.now, s.now);
    var b;
    b, t := RefillAndTake(m, 2);
    run := a + b;
    ReachesAppend(s, a, m, b, t);
  }
}
