/**
Token buckets and the two-dimensional rate limiter for LLM calls. Time is a real number of seconds that never runs
back.
*/
module RateLimiter {
  import opened Prelude

  datatype Bucket = Bucket(capacity: real, rate: real, tokens: real, last: real)

  /** Filled at most to capacity, and refilled in the past. */
  predicate BucketOk(b: Bucket, now: real) {
    0.0 <= b.tokens <= b.capacity && b.rate >= 0.0 && b.last <= now
  }

  function Min(a: real, b: real): real {
    if a <= b then a else b
  }

  /** Tokens earned in a stretch of time. */
  function Earned(rate: real, from: real, to: real): real {
    rate * (to - from)
  }

  lemma EarnedAdds(rate: real, a: real, b: real, c: real)
    ensures Earned(rate, a, b) + Earned(rate, b, c) == Earned(rate, a, c)
    ensures Earned(rate, a, a) == 0.0
    ensures rate >= 0.0 && a <= b ==> Earned(rate, a, b) >= 0.0
  {
  }

  function Refill(b: Bucket, now: real): Bucket {
    b.(tokens := Min(b.tokens + Earned(b.rate, b.last, now), b.capacity), last := now)
  }

  function AvailableAt(b: Bucket, now: real): real {
    Refill(b, now).tokens
  }

  function TryConsume(b: Bucket, amount: real, now: real): (Bucket, bool) {
    var r := Refill(b, now);
    if r.tokens >= amount then (r.(tokens := r.tokens - amount), true) else (r, false)
  }

  function Refund(b: Bucket, amount: real): Bucket {
    b.(tokens := Min(b.tokens + amount, b.capacity))
  }

  /** Seconds until `amount` tokens are there; an hour stands for never. */
  function WaitTime(b: Bucket, amount: real, now: real): real {
    var r := Refill(b, now);
    if r.tokens >= amount then 0.0
    else if b.rate > 0.0 then (amount - r.tokens) / b.rate
    else 3600.0
  }

  class TokenBucket {
    const capacity: real
    const rate: real
    var tokens: real
    var lastRefill: real

    function View(): Bucket
      reads this
    {
      Bucket(capacity, rate, tokens, lastRefill)
    }

    /** Starts full. */
    constructor (capacity: real, rate: real, now: real)
      ensures View() == Bucket(capacity, rate, capacity, now)
    {
      this.capacity, this.rate, tokens, lastRefill := capacity, rate, capacity, now;
    }

    constructor PerMinute(perMinute: real, now: real)
      ensures View() == Bucket(perMinute, perMinute / 60.0, perMinute, now)
    {
      capacity, rate, tokens, lastRefill := perMinute, perMinute / 60.0, perMinute, now;
    }

    method RefillNow(now: real)
      modifies this
      ensures View() == Refill(old(View()), now)
    {
      var refill := rate * (now - lastRefill);
      tokens := if tokens + refill <= capacity then tokens + refill else capacity;
      lastRefill := now;
    }

    method TryTake(amount: real, now: real) returns (ok: bool)
      modifies this
      ensures (View(), ok) == TryConsume(old(View()), amount, now)
    {
      RefillNow(now);
      ok := tokens >= amount;
      if ok { tokens := tokens - amount; }
    }

    method Available(now: real) returns (available: real)
      modifies this
      ensures View() == Refill(old(View()), now) && available == View().tokens
    {
      RefillNow(now);
      available := tokens;
    }

    method GiveBack(amount: real)
      modifies this
      ensures View() == Refund(old(View()), amount)
    {
      tokens := if tokens + amount <= capacity then tokens + amount else capacity;
    }

    method TimeToWait(amount: real, now: real) returns (seconds: real)
      modifies this
      ensures View() == Refill(old(View()), now) && seconds == WaitTime(old(View()), amount, now)
    {
      RefillNow(now);
      if tokens >= amount {
        seconds := 0.0;
      } else if rate > 0.0 {
        seconds := (amount - tokens) / rate;
      } else {
        seconds := 3600.0;
      }
    }

    /**
    The blocking take, retried every hundredth of a second. When the amount is there, or can come to be there, it ends,
    and no later than one retry after the promised wait.
    */
    method Take(amount: real, start: real) returns (end: real)
      requires BucketOk(View(), start)
      requires AvailableAt(View(), start) >= amount || (rate > 0.0 && amount <= capacity)
      modifies this
      ensures start <= end && (end == start || end < start + old(WaitTime(View(), amount, start)) + 0.01)
      ensures tokens == old(AvailableAt(View(), end)) - amount && lastRefill == end
    {
      ghost var b := View();
      end := start;
      var ok := TryTake(amount, end);
      while !ok
        invariant start <= end
        invariant end == start || end < start + WaitTime(b, amount, start) + 0.01
        invariant capacity == b.capacity && rate == b.rate && lastRefill == end
        invariant !ok ==> rate > 0.0 && amount <= capacity
        invariant ok ==> tokens == AvailableAt(b, end) - amount
        invariant !ok ==> tokens == AvailableAt(b, end) < amount
        decreases !ok, 100.0 * (start + WaitTime(b, amount, start) + 0.01 - end)
      {
        StillWaiting(b, amount, start, end);
        RefillInSteps(b, end, end + 0.01);
        end := end + 0.01;
        ok := TryTake(amount, end);
      }
    }
  }

  lemma StillWaiting(b: Bucket, amount: real, start: real, now: real)
    requires BucketOk(b, start) && b.rate > 0.0 && amount <= b.capacity && start <= now
    requires AvailableAt(b, now) < amount
    ensures now < start + WaitTime(b, amount, start)
  {
    EarnedAdds(b.rate, b.last, start, now);
    EarnedAdds(b.rate, start, now, now);
    assert Refill(b, start).tokens == b.tokens + Earned(b.rate, b.last, start);
    WaitEarns(b, amount, start);
    EarnsTooLittle(b.rate, start, now, WaitTime(b, amount, start), amount - AvailableAt(b, start));
  }

  /** The wait times the rate is what is missing. */
  lemma WaitEarns(b: Bucket, amount: real, now: real)
    requires b.rate > 0.0 && AvailableAt(b, now) < amount
    ensures b.rate * WaitTime(b, amount, now) == amount - AvailableAt(b, now)
  {
    Quotient(amount - AvailableAt(b, now), b.rate);
  }

  lemma Quotient(x: real, y: real)
    requires y > 0.0
    ensures y * (x / y) == x
  {
  }

  lemma EarnsTooLittle(rate: real, start: real, now: real, wait: real, missing: real)
    requires rate > 0.0 && Earned(rate, start, now) < missing && rate * wait == missing
    ensures now < start + wait
  {
    assert rate * (start + wait - now) == rate * wait - Earned(rate, start, now);
  }

  lemma RefillInSteps(b: Bucket, mid: real, end: real)
    requires b.rate >= 0.0 && mid <= end
    ensures Refill(Refill(b, mid), end) == Refill(b, end)
  {
    EarnedAdds(b.rate, b.last, mid, end);
  }

  // ----- The limiter -----

  datatype Limiter = Limiter(
    rpm: Bucket,
    tpm: Bucket,
    maxConcurrent: nat,
    active: nat,
    totalRequests: nat,
    totalTokens: nat)

  datatype Verdict = Acquired | RateLimited(seconds: int)

  predicate LimiterOk(l: Limiter, now: real) {
    BucketOk(l.rpm, now) && BucketOk(l.tpm, now)
  }

  /** The saturating cast of an estimate to an unsigned integer. */
  function AsU64(x: real): nat {
    if x < 0.0 then 0 else x.Floor
  }

  /** One acquire, all of it at one instant. */
  function TryAcquire(l: Limiter, estimate: real, now: real): (Limiter, Verdict) {
    if l.active >= l.maxConcurrent then (l, RateLimited(1))
    else
      var (rpm, gotRequest) := TryConsume(l.rpm, 1.0, now);
      if !gotRequest then (l.(rpm := Refill(rpm, now)), RateLimited(WaitTime(rpm, 1.0, now).Floor + 1))
      else
        var (tpm, gotTokens) := TryConsume(l.tpm, estimate, now);
        if !gotTokens then
          (l.(rpm := Refund(rpm, 1.0), tpm := Refill(tpm, now)), RateLimited(WaitTime(tpm, estimate, now).Floor + 1))
        else
          (l.(rpm := rpm, tpm := tpm, active := l.active + 1, totalRequests := l.totalRequests + 1,
              totalTokens := l.totalTokens + AsU64(estimate)), Acquired)
  }

  const USIZE_MAX: nat := 0xFFFF_FFFF_FFFF_FFFF

  /** A release without an acquire wraps the unsigned count. */
  function Release(l: Limiter): Limiter {
    l.(active := if l.active == 0 then USIZE_MAX else l.active - 1)
  }

  function CanRequest(l: Limiter, estimate: real, now: real): bool {
    l.active < l.maxConcurrent && AvailableAt(l.rpm, now) >= 1.0 && AvailableAt(l.tpm, now) >= estimate
  }

  /** The dry check refills the buckets it looks at and changes nothing else. */
  function AfterCanRequest(l: Limiter, now: real): Limiter {
    if l.active >= l.maxConcurrent then l
    else if AvailableAt(l.rpm, now) < 1.0 then l.(rpm := Refill(l.rpm, now))
    else l.(rpm := Refill(l.rpm, now), tpm := Refill(l.tpm, now))
  }

  class LlmRateLimiter {
    const rpmBucket: TokenBucket
    const tpmBucket: TokenBucket
    const maxConcurrent: nat
    var activeCount: nat
    var totalRequests: nat
    var totalTokens: nat

    ghost predicate Valid()
      reads this
    {
      rpmBucket != tpmBucket
    }

    function View(): Limiter
      reads this, rpmBucket, tpmBucket
    {
      Limiter(rpmBucket.View(), tpmBucket.View(), maxConcurrent, activeCount, totalRequests, totalTokens)
    }

    constructor (rpm: real, tpm: real, maxConcurrent: nat, now: real)
      ensures Valid() && fresh(rpmBucket) && fresh(tpmBucket)
      ensures View() == Limiter(Bucket(rpm, rpm / 60.0, rpm, now), Bucket(tpm, tpm / 60.0, tpm, now), maxConcurrent, 0, 0, 0)
    {
      rpmBucket := new TokenBucket.PerMinute(rpm, now);
      tpmBucket := new TokenBucket.PerMinute(tpm, now);
      this.maxConcurrent := maxConcurrent;
      activeCount, totalRequests, totalTokens := 0, 0, 0;
    }

    method Acquire(estimate: real, now: real) returns (verdict: Verdict)
      requires Valid()
      modifies this, rpmBucket, tpmBucket
      ensures Valid() && (View(), verdict) == TryAcquire(old(View()), estimate, now)
    {
      if activeCount >= maxConcurrent { return RateLimited(1); }
      var gotRequest := rpmBucket.TryTake(1.0, now);
      if !gotRequest {
        var wait := rpmBucket.TimeToWait(1.0, now);
        return RateLimited(wait.Floor + 1);
      }
      var gotTokens := tpmBucket.TryTake(estimate, now);
      if !gotTokens {
        var wait := tpmBucket.TimeToWait(estimate, now);
        rpmBucket.GiveBack(1.0);
        return RateLimited(wait.Floor + 1);
      }
      activeCount := activeCount + 1;
      totalRequests := totalRequests + 1;
      totalTokens := totalTokens + AsU64(estimate);
      verdict := Acquired;
    }

    method ReleaseSlot()
      requires Valid()
      modifies this
      ensures Valid() && View() == Release(old(View()))
    {
      activeCount := if activeCount == 0 then USIZE_MAX else activeCount - 1;
    }

    method MayRequest(estimate: real, now: real) returns (may: bool)
      requires Valid()
      modifies this, rpmBucket, tpmBucket
      ensures Valid() && may == CanRequest(old(View()), estimate, now)
      ensures View() == AfterCanRequest(old(View()), now)
    {
      if activeCount >= maxConcurrent { return false; }
      var rpm := rpmBucket.Available(now);
      if rpm < 1.0 { return false; }
      var tpm := tpmBucket.Available(now);
      may := tpm >= estimate;
    }
  }

  // ----- What an acquire promises -----

  lemma RefillTwice(b: Bucket, now: real)
    requires b.tokens <= b.capacity
    ensures Refill(Refill(b, now), now) == Refill(b, now)
  {
    EarnedAdds(b.rate, now, now, now);
  }

  /** The dry check at an instant agrees with the acquire at that instant. */
  lemma CanRequestAgrees(l: Limiter, estimate: real, now: real)
    ensures CanRequest(l, estimate, now) <==> TryAcquire(l, estimate, now).1 == Acquired
  {
  }

  /** A token rejection leaves the request bucket exactly as a bare refill would: no request is leaked or gained. */
  lemma TokenRejectionCostsNoRequest(l: Limiter, estimate: real, now: real)
    requires LimiterOk(l, now) && estimate >= 0.0
    requires l.active < l.maxConcurrent && AvailableAt(l.rpm, now) >= 1.0 && AvailableAt(l.tpm, now) < estimate
    ensures TryAcquire(l, estimate, now).0 == l.(rpm := Refill(l.rpm, now), tpm := Refill(l.tpm, now))
  {
  }

  lemma EarnedScales(rate: real, now: real, wait: real, n: real)
    requires rate >= 0.0 && n >= wait
    ensures Earned(rate, now, now + n) >= rate * wait
  {
    assert Earned(rate, now, now + n) == rate * n;
    assert rate * (n - wait) >= 0.0;
  }

  lemma WaitSuffices(b: Bucket, amount: real, now: real, n: int)
    requires BucketOk(b, now) && b.rate > 0.0 && amount <= b.capacity
    requires n as real >= WaitTime(b, amount, now) && n >= 0
    ensures AvailableAt(Refill(b, now), now + n as real) >= amount
  {
    var r := Refill(b, now);
    if r.tokens < amount {
      WaitEarns(b, amount, now);
      EarnedScales(b.rate, now, WaitTime(b, amount, now), n as real);
    }
  }

  /**
  After a token rejection, repeating the call the promised number of seconds later succeeds, if nothing else called in
  between and the estimate fits the capacity at all.
  */
  lemma TokenPromiseIsKept(l: Limiter, estimate: real, now: real)
    requires LimiterOk(l, now) && estimate >= 0.0 && estimate <= l.tpm.capacity && l.tpm.rate > 0.0
    requires l.active < l.maxConcurrent && AvailableAt(l.rpm, now) >= 1.0 && AvailableAt(l.tpm, now) < estimate
    ensures
      var (after, verdict) := TryAcquire(l, estimate, now);
      verdict.RateLimited? && TryAcquire(after, estimate, now + verdict.seconds as real).1 == Acquired
  {
    var (after, verdict) := TryAcquire(l, estimate, now);
    TokenRejectionCostsNoRequest(l, estimate, now);
    var tpm := Refill(l.tpm, now);
    RefillTwice(l.tpm, now);
    assert WaitTime(tpm, estimate, now) == WaitTime(l.tpm, estimate, now);
    var n := verdict.seconds;
    assert n as real >= WaitTime(l.tpm, estimate, now) >= 0.0;
    WaitSuffices(l.tpm, estimate, now, n);
    EarnedAdds(l.rpm.rate, now, now + n as real, now);
    CanRequestAgrees(after, estimate, now + n as real);
  }

  /**
  After a request rejection the promise covers the request bucket only: the repeated call succeeds exactly when the
  token bucket, which the rejected call never looked at, has the estimate by then.
  */
  lemma RequestPromiseIsKeptIff(l: Limiter, estimate: real, now: real)
    requires LimiterOk(l, now) && estimate >= 0.0 && l.rpm.rate > 0.0 && l.rpm.capacity >= 1.0
    requires l.active < l.maxConcurrent && AvailableAt(l.rpm, now) < 1.0
    ensures
      var (after, verdict) := TryAcquire(l, estimate, now);
      var later := now + verdict.seconds as real;
      verdict.RateLimited? && (TryAcquire(after, estimate, later).1 == Acquired <==> AvailableAt(l.tpm, later) >= estimate)
  {
    var (after, verdict) := TryAcquire(l, estimate, now);
    RefillTwice(l.rpm, now);
    assert after == l.(rpm := Refill(l.rpm, now));
    assert WaitTime(Refill(l.rpm, now), 1.0, now) == WaitTime(l.rpm, 1.0, now);
    var n := verdict.seconds;
    assert n as real >= WaitTime(l.rpm, 1.0, now) >= 0.0;
    WaitSuffices(l.rpm, 1.0, now, n);
    CanRequestAgrees(after, estimate, now + n as real);
  }

  /** Before the wait is over the amount is not there. */
  lemma NotYet(b: Bucket, amount: real, start: real, x: real)
    requires BucketOk(b, start) && b.rate > 0.0 && AvailableAt(b, start) < amount
    requires start <= x < start + WaitTime(b, amount, start)
    ensures AvailableAt(b, x) < amount
  {
    var wait := WaitTime(b, amount, start);
    WaitEarns(b, amount, start);
    EarnedAdds(b.rate, b.last, start, x);
    EarnedGrows(b.rate, start, x, start + wait);
    EarnedOverWait(b.rate, start, wait);
    RefillInSteps(b, start, x);
  }

  lemma EarnedGrows(rate: real, from: real, a: real, b: real)
    requires rate > 0.0 && a < b
    ensures Earned(rate, from, a) < Earned(rate, from, b)
  {
    assert rate * (b - a) > 0.0;
    assert rate * (b - from) - rate * (a - from) == rate * (b - a);
  }

  lemma EarnedOverWait(rate: real, from: real, wait: real)
    ensures Earned(rate, from, from + wait) == rate * wait
  {
  }

  /** Which bucket a rejected acquire is told to wait for, and how much of it. */
  function Short(l: Limiter, estimate: real, now: real): (Bucket, real) {
    if AvailableAt(l.rpm, now) < 1.0 then (l.rpm, 1.0) else (l.tpm, estimate)
  }

  /**
  The promise is no longer than it must be: it exceeds the wait for the bucket that is short by at most a second, and
  at every earlier time at which that second is still to come the repeated call would be rejected again.
  */
  lemma PromiseIsTight(l: Limiter, estimate: real, now: real, x: real)
    requires LimiterOk(l, now) && estimate >= 0.0 && l.active < l.maxConcurrent && !CanRequest(l, estimate, now)
    requires l.rpm.rate > 0.0 && l.tpm.rate > 0.0
    ensures
      var (after, verdict) := TryAcquire(l, estimate, now);
      var (short, amount) := Short(l, estimate, now);
      && verdict.RateLimited?
      && WaitTime(short, amount, now) < verdict.seconds as real <= WaitTime(short, amount, now) + 1.0
      && (now <= x < now + (verdict.seconds - 1) as real ==> TryAcquire(after, estimate, x).1.RateLimited?)
  {
    var (after, verdict) := TryAcquire(l, estimate, now);
    var (short, amount) := Short(l, estimate, now);
    RefillTwice(l.rpm, now);
    RefillTwice(l.tpm, now);
    WaitAfterRefill(short, amount, now);
    if now <= x < now + (verdict.seconds - 1) as real {
      NotYet(short, amount, now, x);
      RefillInSteps(short, now, x);
      CanRequestAgrees(after, estimate, x);
    }
  }

  lemma WaitAfterRefill(b: Bucket, amount: real, now: real)
    requires b.tokens <= b.capacity
    ensures WaitTime(Refill(b, now), amount, now) == WaitTime(b, amount, now)
  {
    RefillTwice(b, now);
  }

  /** Without a refill the promise is an hour and a second; without a free slot it is a second, and nothing changes. */
  lemma OtherPromises(l: Limiter, estimate: real, now: real)
    requires l.rpm.tokens <= l.rpm.capacity && l.tpm.tokens <= l.tpm.capacity
    ensures l.active >= l.maxConcurrent ==> TryAcquire(l, estimate, now) == (l, RateLimited(1))
    ensures l.active < l.maxConcurrent && !CanRequest(l, estimate, now) && Short(l, estimate, now).0.rate == 0.0 ==>
      TryAcquire(l, estimate, now).1 == RateLimited(3601)
  {
    RefillTwice(l.rpm, now);
    RefillTwice(l.tpm, now);
  }

  /** A dry check changes nothing that a later acquire could notice. */
  lemma DryCheckIsHarmless(l: Limiter, now: real, estimate: real, x: real)
    requires l.rpm.rate >= 0.0 && l.tpm.rate >= 0.0 && now <= x
    ensures
      var after := AfterCanRequest(l, now);
      && AvailableAt(after.rpm, x) == AvailableAt(l.rpm, x) && AvailableAt(after.tpm, x) == AvailableAt(l.tpm, x)
      && TryAcquire(after, estimate, x).1 == TryAcquire(l, estimate, x).1
      && after.active == l.active && after.totalRequests == l.totalRequests && after.totalTokens == l.totalTokens
  {
    RefillInSteps(l.rpm, now, x);
    RefillInSteps(l.tpm, now, x);
  }

  /** Only an acquire that succeeds is counted: one slot, one request, and the whole tokens of its estimate. */
  lemma AcquireCounts(l: Limiter, estimate: real, now: real)
    requires estimate >= 0.0
    ensures
      var (after, verdict) := TryAcquire(l, estimate, now);
      var n := if verdict == Acquired then 1 else 0;
      && after.active == l.active + n && after.totalRequests == l.totalRequests + n && after.maxConcurrent == l.maxConcurrent
      && (verdict == Acquired ==>
            estimate - 1.0 < (after.totalTokens - l.totalTokens) as real <= estimate && l.active < l.maxConcurrent)
      && (verdict != Acquired ==> after.totalTokens == l.totalTokens)
  {
  }

  // ----- Windows -----

  /** A call to the limiter at an instant. */
  datatype Call = AcquireAt(estimate: real, at: real) | ReleaseAt(at: real) | CheckAt(estimate: real, at: real)

  /** The limiter, the time, and the sum of the estimates accepted so far. */
  datatype Run = Run(limiter: Limiter, now: real, accepted: real)

  predicate Possible(r: Run, c: Call) {
    r.now <= c.at && (c.AcquireAt? ==> c.estimate >= 0.0)
  }

  function Next(r: Run, c: Call): Run
    requires Possible(r, c)
  {
    match c
    case ReleaseAt(at) => r.(limiter := Release(r.limiter), now := at)
    case CheckAt(_, at) => r.(limiter := AfterCanRequest(r.limiter, at), now := at)
    case AcquireAt(estimate, at) =>
      var (l, verdict) := TryAcquire(r.limiter, estimate, at);
      Run(l, at, if verdict == Acquired then r.accepted + estimate else r.accepted)
  }

  ghost predicate Reaches(r: Run, calls: seq<Call>, t: Run)
    decreases calls
  {
    if calls == [] then r == t else Possible(r, calls[0]) && Reaches(Next(r, calls[0]), calls[1..], t)
  }

  /** What one call does to a bucket: it earns with time and pays what was accepted, capped at capacity. */
  ghost predicate Pays(was: Bucket, from: real, now: Bucket, to: real, amount: real) {
    && BucketOk(now, to) && now.rate == was.rate && now.capacity == was.capacity
    && AvailableAt(now, to) <= AvailableAt(was, from) + Earned(was.rate, from, to) - amount
  }

  lemma RefillPays(b: Bucket, from: real, to: real)
    requires BucketOk(b, from) && from <= to
    ensures Pays(b, from, b, to, 0.0) && Pays(b, from, Refill(b, to), to, 0.0)
    ensures 0.0 <= AvailableAt(b, to) <= b.capacity
  {
    EarnedAdds(b.rate, b.last, from, to);
    EarnedAdds(b.rate, from, to, to);
    RefillInSteps(b, from, to);
    RefillTwice(b, to);
  }

  lemma TakePays(b: Bucket, from: real, to: real, amount: real)
    requires BucketOk(b, from) && from <= to && 0.0 <= amount <= AvailableAt(b, to)
    ensures Pays(b, from, TryConsume(b, amount, to).0, to, amount)
  {
    RefillPays(b, from, to);
    EarnedAdds(b.rate, to, to, to);
  }

  lemma CallPays(r: Run, c: Call)
    requires LimiterOk(r.limiter, r.now) && Possible(r, c)
    ensures
      var t := Next(r, c);
      && Pays(r.limiter.rpm, r.now, t.limiter.rpm, t.now, (t.limiter.totalRequests - r.limiter.totalRequests) as real)
      && Pays(r.limiter.tpm, r.now, t.limiter.tpm, t.now, t.accepted - r.accepted)
  {
    var l := r.limiter;
    RefillPays(l.rpm, r.now, c.at);
    RefillPays(l.tpm, r.now, c.at);
    if c.AcquireAt? && CanRequest(l, c.estimate, c.at) {
      TakePays(l.rpm, r.now, c.at, 1.0);
      TakePays(l.tpm, r.now, c.at, c.estimate);
    } else if c.AcquireAt? && l.active < l.maxConcurrent {
      RefillTwice(l.rpm, c.at);
      if AvailableAt(l.rpm, c.at) >= 1.0 { TokenRejectionCostsNoRequest(l, c.estimate, c.at); }
    }
  }

  lemma {:induction false} RunPays(r: Run, calls: seq<Call>, t: Run)
    requires LimiterOk(r.limiter, r.now) && Reaches(r, calls, t)
    ensures r.now <= t.now && LimiterOk(t.limiter, t.now)
    ensures Pays(r.limiter.rpm, r.now, t.limiter.rpm, t.now, (t.limiter.totalRequests - r.limiter.totalRequests) as real)
    ensures Pays(r.limiter.tpm, r.now, t.limiter.tpm, t.now, t.accepted - r.accepted)
    decreases calls
  {
    if calls == [] {
      RefillPays(r.limiter.rpm, r.now, r.now);
      RefillPays(r.limiter.tpm, r.now, r.now);
    } else {
      var m := Next(r, calls[0]);
      CallPays(r, calls[0]);
      RunPays(m, calls[1..], t);
      EarnedAdds(r.limiter.rpm.rate, r.now, m.now, t.now);
      EarnedAdds(r.limiter.tpm.rate, r.now, m.now, t.now);
    }
  }

  /**
  Between any two points of any run of calls, rejected and refunded ones included, the requests accepted are at most
  the request capacity plus what that bucket earns in between, and the accepted estimates at most the same for tokens.
  */
  lemma WindowBound(r: Run, calls: seq<Call>, t: Run)
    requires LimiterOk(r.limiter, r.now) && Reaches(r, calls, t)
    ensures (t.limiter.totalRequests - r.limiter.totalRequests) as real
         <= r.limiter.rpm.capacity + Earned(r.limiter.rpm.rate, r.now, t.now)
    ensures t.accepted - r.accepted <= r.limiter.tpm.capacity + Earned(r.limiter.tpm.rate, r.now, t.now)
  {
    RunPays(r, calls, t);
    RefillPays(t.limiter.rpm, t.now, t.now);
    RefillPays(t.limiter.tpm, t.now, t.now);
    RefillPays(r.limiter.rpm, r.now, r.now);
    RefillPays(r.limiter.tpm, r.now, r.now);
  }

  function Releases(calls: seq<Call>): nat {
    if calls == [] then 0 else (if calls[0].ReleaseAt? then 1 else 0) + Releases(calls[1..])
  }

  /** Every release follows an acquire that it gives back. */
  ghost predicate Paired(r: Run, calls: seq<Call>)
    decreases calls
  {
    calls == [] || !Possible(r, calls[0]) ||
    ((calls[0].ReleaseAt? ==> r.limiter.active > 0) && Paired(Next(r, calls[0]), calls[1..]))
  }

  /**
  Over any run of paired calls the active count is what was acquired less what was released and never passes the limit,
  and the token total lags the accepted estimates by less than one token per request.
  */
  lemma {:induction false} TotalsTrack(r: Run, calls: seq<Call>, t: Run)
    requires Reaches(r, calls, t) && Paired(r, calls)
    ensures t.limiter.totalRequests >= r.limiter.totalRequests && t.limiter.maxConcurrent == r.limiter.maxConcurrent
    ensures t.limiter.active == r.limiter.active + (t.limiter.totalRequests - r.limiter.totalRequests) - Releases(calls)
    ensures r.limiter.active <= r.limiter.maxConcurrent ==> t.limiter.active <= t.limiter.maxConcurrent
    ensures
      var requests := (t.limiter.totalRequests - r.limiter.totalRequests) as real;
      var counted, accepted := (t.limiter.totalTokens - r.limiter.totalTokens) as real, t.accepted - r.accepted;
      accepted - requests <= counted <= accepted
    decreases calls
  {
    if calls != [] {
      var m := Next(r, calls[0]);
      if calls[0].AcquireAt? { AcquireCounts(r.limiter, calls[0].estimate, calls[0].at); }
      TotalsTrack(m, calls[1..], t);
    }
  }
}
