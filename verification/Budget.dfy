/** Task budgets: work is admitted before it spends and accounted after, so what is in flight can still overshoot. */
module Budget {
  import opened Prelude
  import opened FiniteSets
  import opened RS = RuntimeState

  datatype Limits = Limits(tokens: Option<int>, costUsd: Option<real>, seconds: Option<real>)

  predicate Unlimited(l: Limits) {
    l.tokens.None? && l.costUsd.None? && l.seconds.None?
  }

  datatype BudgetRecord =
    | NoBudget
    | Budget(startedAt: real, tokensUsed: nat, costMicroUsd: nat, executions: nat, unreported: nat)

  datatype Usage = Usage(inputTokens: Option<int>, outputTokens: Option<int>, totalCostUsd: Option<real>)

  datatype Reason = IsUnlimited | WithinBudget | OutOfTokens | OutOfCost | OutOfTime

  datatype Verdict = Verdict(admitted: bool, reason: Reason)

  // ----- Measuring one completion -----

  datatype Measured = Measured(tokens: nat, microUsd: nat, reported: bool)

  /** Round half to even. */
  function Round(x: real): int {
    var f := x.Floor;
    var d := x - f as real;
    if d < 0.5 then f else if d > 0.5 then f + 1 else if f % 2 == 0 then f else f + 1
  }

  function Positive(n: Option<int>): nat {
    if n.Some? && n.value > 0 then n.value else 0
  }

  function Measure(usage: Option<Usage>): Measured {
    match usage
    case None => Measured(0, 0, false)
    case Some(u) =>
      var tokens := Positive(u.inputTokens) + Positive(u.outputTokens);
      var micro := if u.totalCostUsd.Some? && u.totalCostUsd.value > 0.0 then Round(u.totalCostUsd.value * 1000000.0) else 0;
      Measured(tokens, micro, tokens > 0 || micro > 0)
  }

  method MeasureUsage(usage: Option<Usage>) returns (m: Measured)
    ensures m == Measure(usage)
  {
    if usage.None? { return Measured(0, 0, false); }
    var fields := [usage.value.inputTokens, usage.value.outputTokens];
    var tokens: nat := 0;
    for i := 0 to |fields|
      invariant i == 0 ==> tokens == 0
      invariant i == 1 ==> tokens == Positive(fields[0])
      invariant i == 2 ==> tokens == Positive(fields[0]) + Positive(fields[1])
    {
      if fields[i].Some? && fields[i].value > 0 { tokens := tokens + fields[i].value; }
    }
    var cost := usage.value.totalCostUsd;
    var micro: nat := if cost.Some? && cost.value > 0.0 then Round(cost.value * 1000000.0) else 0;
    m := Measured(tokens, micro, tokens > 0 || micro > 0);
  }

  // ----- Admission and accounting -----

  function OrFirst(was: BudgetRecord, now: real): BudgetRecord {
    if was.NoBudget? then Budget(now, 0, 0, 0, 0) else was
  }

  /** The cap that is already met, if any. A start time of zero never times out. */
  function Exhaustion(r: BudgetRecord, l: Limits, now: real): Option<Reason>
    requires r.Budget?
  {
    if l.tokens.Some? && r.tokensUsed >= l.tokens.value then Some(OutOfTokens)
    else if l.costUsd.Some? && r.costMicroUsd as real / 1000000.0 >= l.costUsd.value then Some(OutOfCost)
    else if l.seconds.Some? && r.startedAt != 0.0 && now - r.startedAt >= l.seconds.value then Some(OutOfTime)
    else None
  }

  function AdmitVerdict(r: BudgetRecord, l: Limits, now: real): Verdict
    requires r.Budget?
  {
    if Unlimited(l) then Verdict(true, IsUnlimited)
    else match Exhaustion(r, l, now)
         case Some(reason) => Verdict(false, reason)
         case None => Verdict(true, WithinBudget)
  }

  function Account(was: BudgetRecord, m: Measured, now: real): BudgetRecord {
    var b := OrFirst(was, now);
    b.(executions := b.executions + 1,
       tokensUsed := b.tokensUsed + m.tokens,
       costMicroUsd := b.costMicroUsd + m.microUsd,
       unreported := if m.reported then b.unreported else b.unreported + 1)
  }

  /**
  The verdict that accounting returns; without limits it names the reason `unlimited` and so counts as not admitted.
  */
  function RecordVerdict(r: BudgetRecord, l: Limits, now: real): Verdict
    requires r.Budget?
  {
    if Unlimited(l) then Verdict(false, IsUnlimited)
    else match Exhaustion(r, l, now)
         case Some(reason) => Verdict(false, reason)
         case None => Verdict(true, WithinBudget)
  }

  class TaskBudgetLedger {
    const state: RuntimeState<BudgetRecord>
    const limits: Limits

    ghost predicate Valid()
      reads this, state
    {
      state.Valid() && state.empty == NoBudget
    }

    constructor (state: RuntimeState<BudgetRecord>, limits: Limits)
      requires state.Valid() && state.empty == NoBudget
      ensures Valid() && this.state == state && this.limits == limits
    {
      this.state, this.limits := state, limits;
    }

    method Admit(task: string, now: real) returns (verdict: Verdict)
      requires Valid()
      modifies state
      ensures Valid() && verdict == AdmitVerdict(OrFirst(old(state.Get(task)), now), limits, now)
      ensures state.Data() == old(state.Data())[task := OrFirst(old(state.Get(task)), now)]
    {
      var init: BudgetRecord -> Result<BudgetRecord, ()> := r => Ok(OrFirst(r, now));
      var res := state.Mutate(task, init, None, now);
      verdict := AdmitVerdict(res.value, limits, now);
    }

    method Record(task: string, usage: Option<Usage>, now: real) returns (verdict: Verdict)
      requires Valid()
      modifies state
      ensures Valid() && verdict == RecordVerdict(Account(old(state.Get(task)), Measure(usage), now), limits, now)
      ensures state.Data() == old(state.Data())[task := Account(old(state.Get(task)), Measure(usage), now)]
    {
      var m := MeasureUsage(usage);
      var change: BudgetRecord -> Result<BudgetRecord, ()> := r => Ok(Account(r, m, now));
      var res := state.Mutate(task, change, None, now);
      verdict := RecordVerdict(res.value, limits, now);
    }
  }

  /** Admission and accounting judge the same record alike exactly when some limit is set. */
  lemma VerdictsAgreeIffLimited(r: BudgetRecord, l: Limits, now: real)
    requires r.Budget?
    ensures AdmitVerdict(r, l, now) == RecordVerdict(r, l, now) <==> l != Limits(None, None, None)
    ensures l == Limits(None, None, None) ==> RecordVerdict(r, l, now) == Verdict(false, IsUnlimited)
  {
  }

  // ----- What one report adds -----

  /** The tokens a report names: each of its two fields that is above zero, in full. */
  function ReportedTokens(usage: Option<Usage>): nat {
    if usage.None? then 0
    else
      (if usage.value.inputTokens.Some? && usage.value.inputTokens.value > 0 then usage.value.inputTokens.value else 0)
      + (if usage.value.outputTokens.Some? && usage.value.outputTokens.value > 0 then usage.value.outputTokens.value else 0)
  }

  /** The cost a report names, in micro-dollars. */
  function ReportedMicro(usage: Option<Usage>): real {
    if usage.Some? && usage.value.totalCostUsd.Some? && usage.value.totalCostUsd.value > 0.0
    then usage.value.totalCostUsd.value * 1000000.0
    else 0.0
  }

  /** Rounding goes to the nearest whole number, and halfway to the even one. */
  lemma RoundIsNearest(x: real)
    ensures x - 0.5 <= Round(x) as real <= x + 0.5
    ensures Round(x) as real == x - 0.5 || Round(x) as real == x + 0.5 ==> Round(x) % 2 == 0
    ensures x >= 0.0 ==> Round(x) >= 0
  {
  }

  lemma RoundStaysBelow(x: real, n: int)
    requires x <= n as real
    ensures Round(x) <= n
  {
  }

  /**
  A report adds its tokens exactly and its cost to within half a micro-dollar, and is silent if it names no tokens and
  at most half a micro-dollar.
  */
  lemma MeasuresWhatIsReported(usage: Option<Usage>)
    ensures
      var m := Measure(usage);
      && m.tokens == ReportedTokens(usage)
      && ReportedMicro(usage) - 0.5 <= m.microUsd as real <= ReportedMicro(usage) + 0.5
      && (!m.reported <==> ReportedTokens(usage) == 0 && ReportedMicro(usage) <= 0.5)
  {
    RoundIsNearest(ReportedMicro(usage));
  }

  lemma MeasureStaysBelow(usage: Option<Usage>, most: nat)
    requires ReportedMicro(usage) <= most as real
    ensures Measure(usage).microUsd <= most
  {
    RoundStaysBelow(ReportedMicro(usage), most);
  }

  // ----- Runs: many subtasks of one task -----

  /**
  `inFlight` are the subtasks admitted and not recorded yet, `log` the reports recorded so far, `started` the time of
  the first call for the task.
  */
  datatype State = State(
    record: BudgetRecord,
    now: real,
    inFlight: set<nat>,
    log: seq<Option<Usage>>,
    started: Option<real>)

  datatype Action =
    | Admit(subtask: nat, at: real)
    | Record(subtask: nat, usage: Option<Usage>, at: real)
    | Vanish(subtask: nat)

  /**
  At most `capacity` subtasks are in flight at once, and each reports at most `most` tokens and `mostMicro`
  micro-dollars.
  */
  datatype Bounds = Bounds(capacity: nat, most: nat, mostMicro: nat)

  predicate Enabled(k: Bounds, s: State, a: Action) {
    match a
    case Admit(i, at) => s.now <= at && i !in s.inFlight && |s.inFlight| < k.capacity
    case Record(i, usage, at) =>
      s.now <= at && i in s.inFlight && ReportedTokens(usage) <= k.most && ReportedMicro(usage) <= k.mostMicro as real
    case Vanish(i) => i in s.inFlight
  }

  function FirstCall(s: State, at: real): Option<real> {
    if s.started.Some? then s.started else Some(at)
  }

  function Step(l: Limits, s: State, a: Action): State {
    match a
    case Admit(i, at) =>
      var r := OrFirst(s.record, at);
      State(r, at, if AdmitVerdict(r, l, at).admitted then s.inFlight + {i} else s.inFlight, s.log, FirstCall(s, at))
    case Record(i, usage, at) =>
      State(Account(s.record, Measure(usage), at), at, s.inFlight - {i}, s.log + [usage], FirstCall(s, at))
    case Vanish(i) => s.(inFlight := s.inFlight - {i})
  }

  ghost predicate Reaches(k: Bounds, l: Limits, s: State, run: seq<Action>, t: State)
    decreases run
  {
    if run == [] then s == t else Enabled(k, s, run[0]) && Reaches(k, l, Step(l, s, run[0]), run[1..], t)
  }

  function Start(now: real): State {
    State(NoBudget, now, {}, [], None)
  }

  function UsedTokens(r: BudgetRecord): nat {
    if r.Budget? then r.tokensUsed else 0
  }

  function UsedMicro(r: BudgetRecord): nat {
    if r.Budget? then r.costMicroUsd else 0
  }

  function Tokens(log: seq<Option<Usage>>): nat {
    if log == [] then 0 else Tokens(log[..|log| - 1]) + ReportedTokens(log[|log| - 1])
  }

  function Micro(log: seq<Option<Usage>>): real {
    if log == [] then 0.0 else Micro(log[..|log| - 1]) + ReportedMicro(log[|log| - 1])
  }

  /** How many reports name no tokens and no cost that rounds to a micro-dollar. */
  function Silent(log: seq<Option<Usage>>): nat {
    if log == [] then 0
    else
      var last := log[|log| - 1];
      Silent(log[..|log| - 1]) + (if ReportedTokens(last) == 0 && ReportedMicro(last) <= 0.5 then 1 else 0)
  }

  /**
  The record is what was reported: the tokens to the last one, the cost to within half a micro-dollar per report, every
  completion and every silent one counted, and the clock started by the first call.
  */
  ghost predicate Conserved(s: State) {
    if s.record.NoBudget? then s.log == [] && s.inFlight == {} && s.started == None
    else
      && s.record.tokensUsed == Tokens(s.log)
      && Micro(s.log) - 0.5 * |s.log| as real <= s.record.costMicroUsd as real <= Micro(s.log) + 0.5 * |s.log| as real
      && s.record.executions == |s.log| && s.record.unreported == Silent(s.log)
      && s.started == Some(s.record.startedAt)
  }

  /**
  One less than the limit and a share for everything that can be in flight; a limit of zero or less allows nothing.
  */
  function TokenAllowance(limit: int, k: Bounds): int {
    if limit >= 1 then limit - 1 + k.capacity * k.most else 0
  }

  predicate WithinCost(micro: nat, limit: real, k: Bounds) {
    if limit > 0.0 then micro as real < limit * 1000000.0 + (k.capacity * k.mostMicro) as real else micro == 0
  }

  ghost predicate TokensBounded(k: Bounds, l: Limits, s: State) {
    l.tokens.Some? ==> UsedTokens(s.record) + |s.inFlight| * k.most <= TokenAllowance(l.tokens.value, k)
  }

  ghost predicate CostBounded(k: Bounds, l: Limits, s: State) {
    l.costUsd.Some? ==> WithinCost(UsedMicro(s.record) + |s.inFlight| * k.mostMicro, l.costUsd.value, k)
  }

  ghost predicate Inv(k: Bounds, l: Limits, s: State) {
    Conserved(s) && |s.inFlight| <= k.capacity && TokensBounded(k, l, s) && CostBounded(k, l, s)
  }

  lemma Times(a: nat, b: nat, x: nat)
    requires a <= b
    ensures a * x <= b * x && (a + 1) * x == a * x + x
  {
  }

  lemma LogGrows(log: seq<Option<Usage>>, usage: Option<Usage>)
    ensures Tokens(log + [usage]) == Tokens(log) + ReportedTokens(usage)
    ensures Micro(log + [usage]) == Micro(log) + ReportedMicro(usage)
    ensures Silent(log + [usage]) == Silent(log) + (if ReportedTokens(usage) == 0 && ReportedMicro(usage) <= 0.5 then 1 else 0)
  {
    assert (log + [usage])[..|log|] == log;
  }

  lemma StepKeepsConserved(k: Bounds, l: Limits, s: State, a: Action)
    requires Conserved(s) && Enabled(k, s, a)
    ensures Conserved(Step(l, s, a))
  {
    if a.Record? {
      MeasuresWhatIsReported(a.usage);
      LogGrows(s.log, a.usage);
    }
  }

  /** An admission happens below the limit, so whatever is in flight afterwards is covered by the allowance. */
  lemma AdmitKeepsBounds(k: Bounds, l: Limits, s: State, a: Action)
    requires Inv(k, l, s) && Enabled(k, s, a) && a.Admit?
    ensures |Step(l, s, a).inFlight| <= k.capacity && TokensBounded(k, l, Step(l, s, a)) && CostBounded(k, l, Step(l, s, a))
  {
    var t := Step(l, s, a);
    Times(|t.inFlight|, k.capacity, k.most);
    Times(|t.inFlight|, k.capacity, k.mostMicro);
    if t.inFlight != s.inFlight && l.costUsd.Some? {
      assert t.record.costMicroUsd as real / 1000000.0 < l.costUsd.value;
    }
  }

  /** A completion spends at most the share that its place in flight had set aside. */
  lemma LeaveKeepsBounds(k: Bounds, l: Limits, s: State, a: Action)
    requires Inv(k, l, s) && Enabled(k, s, a) && !a.Admit?
    ensures |Step(l, s, a).inFlight| <= k.capacity && TokensBounded(k, l, Step(l, s, a)) && CostBounded(k, l, Step(l, s, a))
  {
    var t := Step(l, s, a);
    SizeByOne(t.inFlight, s.inFlight, a.subtask);
    Times(|t.inFlight|, k.capacity, k.most);
    Times(|t.inFlight|, k.capacity, k.mostMicro);
    if a.Record? {
      MeasuresWhatIsReported(a.usage);
      MeasureStaysBelow(a.usage, k.mostMicro);
    }
  }

  lemma {:induction false} RunKeepsInv(k: Bounds, l: Limits, s: State, run: seq<Action>, t: State)
    requires Inv(k, l, s) && Reaches(k, l, s, run, t)
    ensures Inv(k, l, t)
    decreases run
  {
    if run != [] {
      StepKeepsConserved(k, l, s, run[0]);
      if run[0].Admit? { AdmitKeepsBounds(k, l, s, run[0]); } else { LeaveKeepsBounds(k, l, s, run[0]); }
      RunKeepsInv(k, l, Step(l, s, run[0]), run[1..], t);
    }
  }

  lemma StartOk(k: Bounds, l: Limits, start: real)
    ensures Inv(k, l, Start(start))
  {
    Times(0, k.capacity, k.most);
    Times(0, k.capacity, k.mostMicro);
  }

  /**
  In every interleaving of admissions, completions and losses: the totals are the sums of what was reported, and they
  overshoot a limit by less than one subtask's most per subtask that can be in flight.
  */
  lemma OvershootBounded(k: Bounds, l: Limits, start: real, run: seq<Action>, t: State)
    requires Reaches(k, l, Start(start), run, t)
    ensures Conserved(t)
    ensures l.tokens.Some? ==> Tokens(t.log) == UsedTokens(t.record) <= TokenAllowance(l.tokens.value, k)
    ensures l.costUsd.Some? ==> WithinCost(UsedMicro(t.record), l.costUsd.value, k)
  {
    StartOk(k, l, start);
    RunKeepsInv(k, l, Start(start), run, t);
    Times(0, |t.inFlight|, k.most);
    Times(0, |t.inFlight|, k.mostMicro);
  }

  // ----- Who is admitted -----

  /** A limit that what was reported and recorded, or the time since the first call, has reached. */
  predicate OverTokens(l: Limits, tokens: nat) {
    l.tokens.Some? && tokens >= l.tokens.value
  }

  predicate OverCost(l: Limits, micro: nat) {
    l.costUsd.Some? && micro as real >= l.costUsd.value * 1000000.0
  }

  predicate OverTime(l: Limits, since: real, now: real) {
    l.seconds.Some? && since != 0.0 && now - since >= l.seconds.value
  }

  function Named(tokens: bool, cost: bool, time: bool): Verdict {
    if tokens then Verdict(false, OutOfTokens)
    else if cost then Verdict(false, OutOfCost)
    else if time then Verdict(false, OutOfTime)
    else Verdict(true, WithinBudget)
  }

  lemma CostCompares(micro: nat, limit: real)
    ensures micro as real / 1000000.0 >= limit <==> micro as real >= limit * 1000000.0
  {
  }

  /**
  In every reachable state a subtask is admitted exactly if no limit is reached: the tokens reported so far, the cost
  recorded so far, the time since the first call. The verdict names the first limit that is, in that order.
  */
  lemma AdmittedIff(k: Bounds, l: Limits, start: real, run: seq<Action>, t: State, i: nat, at: real)
    requires Reaches(k, l, Start(start), run, t) && Enabled(k, t, Admit(i, at))
    ensures
      var since := if t.started.Some? then t.started.value else at;
      var tokens, cost, time := OverTokens(l, Tokens(t.log)), OverCost(l, UsedMicro(t.record)), OverTime(l, since, at);
      var u := Step(l, t, Admit(i, at));
      && (i in u.inFlight <==> !tokens && !cost && !time)
      && UsedTokens(u.record) == UsedTokens(t.record) && UsedMicro(u.record) == UsedMicro(t.record) && u.log == t.log
      && (l == Limits(None, None, None) ==> AdmitVerdict(u.record, l, at) == Verdict(true, IsUnlimited))
      && (l != Limits(None, None, None) ==> AdmitVerdict(u.record, l, at) == Named(tokens, cost, time))
  {
    StartOk(k, l, start);
    RunKeepsInv(k, l, Start(start), run, t);
    if l.costUsd.Some? { CostCompares(UsedMicro(t.record), l.costUsd.value); }
  }

  predicate Refuses(l: Limits, s: State) {
    s.record.Budget? && !AdmitVerdict(s.record, l, s.now).admitted
  }

  /** Under fixed limits and a clock that does not run back, a task refused once is refused in every continuation. */
  lemma {:induction false} RefusedForever(k: Bounds, l: Limits, s: State, run: seq<Action>, t: State)
    requires Refuses(l, s) && Reaches(k, l, s, run, t)
    ensures Refuses(l, t)
    decreases run
  {
    if run != [] {
      var next := Step(l, s, run[0]);
      assert next.record.costMicroUsd as real / 1000000.0 >= s.record.costMicroUsd as real / 1000000.0;
      assert Exhaustion(next.record, l, next.now).Some?;
      RefusedForever(k, l, next, run[1..], t);
    }
  }
}
