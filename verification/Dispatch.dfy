/**
The worker body as a protocol: many deliveries and redeliveries of dispatches for one subtask, handled by processes on
several hosts that share the outcome record and the per-attempt execution claims, and that may die, be cancelled or
fail at any await. An observer counts what happens to one attempt of interest.
*/
module Dispatch {
  import opened Prelude
  import opened FiniteSets
  import opened Outbox

  /**
  `host` places processes, `domain` marks an inference subtask. `releases` says whether a finished handler clears its
  own claim. The worker clears the entry under the outcome key while it acquires under the attempt key, so for it
  `releases` is false; the safety results do not depend on which it is.
  */
  datatype Config = Config(host: nat -> nat, domain: bool, releases: bool, focus: nat)

  /** Claims exclude each other: inference subtasks on any host, any subtask when all processes share one host. */
  ghost predicate Excluding(cfg: Config) {
    cfg.domain || forall p, q :: cfg.host(p) == cfg.host(q)
  }

  datatype Why = Answered(seen: OutcomeRecord) | Persisted | WasCancelled

  /** A handler about to acknowledge keeps why, and how often the record had been compacted when it decided. */
  datatype Pc =
    | Arrived
    | Refusing
    | Unsettled
    | Owned
    | Checked
    | Running
    | Ran(content: Content)
    | Acking(why: Why, since: nat)

  datatype Handler = Handler(attempt: nat, process: nat, pc: Pc, owned: bool)

  datatype ExecutionClaim = ExecutionClaim(handler: nat, process: nat)

  /**
  `compacted` counts the compactions of the record. The last four fields observe the attempt of interest: runs started,
  runs that ended unpersisted, runs that were persisted, who acquired.
  */
  datatype State = State(
    record: OutcomeRecord,
    claims: map<nat, ExecutionClaim>,
    handlers: map<nat, Handler>,
    dead: set<nat>,
    cancelled: set<nat>,
    compacted: nat,
    runs: nat,
    lost: nat,
    persisted: nat,
    acquired: set<nat>)

  datatype Action =
    | Deliver(attempt: nat, process: nat)
    | Refuse
    | StoreRefusal(fingerprint: string, content: Content)
    | Look
    | SeeCancelled
    | Acquire(seemsAlive: bool)
    | LookAgain
    | Run
    | CancelRun
    | Return(content: Content)
    | Persist(fingerprint: string)
    | Fail
    | Ack
    | Die(process: nat)
    | Cancel(process: nat)
    | DeliveryStep(record: OutcomeRecord)
    | Compact(olderThan: real)

  /** A delivery step may touch anything about a record but its attempt and content. */
  predicate SameOutcome(was: OutcomeRecord, now: OutcomeRecord) {
    if was.Live? then now.Live? && now.attempt == was.attempt && now.content == was.content else now == was
  }

  /** What delivery does to a record is such a step. */
  lemma DeliveryKeepsOutcome(was: OutcomeRecord, token: nat, now: real, ttl: real, delivered: bool)
    ensures SameOutcome(was, ClaimChange(was, token, now, ttl)) && SameOutcome(was, FinishChange(was, token, delivered, now))
    ensures RenewChange(was, token, now, ttl).Ok? ==> SameOutcome(was, RenewChange(was, token, now, ttl).value)
  {
  }

  predicate ReadyFor(pc: Pc, a: Action) {
    match a
    case Refuse => pc.Arrived? || pc.Unsettled?
    case StoreRefusal(_, content) => pc.Refusing? && !content.success
    case Look => pc.Arrived?
    case SeeCancelled => pc.Unsettled? || pc.Checked? || pc.Ran?
    case Acquire(_) => pc.Unsettled?
    case LookAgain => pc.Owned?
    case Run => pc.Checked?
    case CancelRun => pc.Running?
    case Return(_) => pc.Running?
    case Persist(_) => pc.Ran?
    case Fail => true
    case Ack => pc.Acking?
    case _ => false
  }

  predicate Enabled(s: State, h: nat, a: Action) {
    match a
    case Deliver(_, p) => h !in s.handlers && p !in s.dead
    case Die(p) => p !in s.dead
    case Cancel(_) => true
    case DeliveryStep(r) => SameOutcome(s.record, r)
    case Compact(_) => true
    case _ =>
      && h in s.handlers && ReadyFor(s.handlers[h].pc, a)
      && (a.SeeCancelled? ==> s.handlers[h].process in s.cancelled)
  }

  /**
  The acquire decision: an existing claim stands on another host if inference, on this host while its process matches.
  */
  predicate Blocked(cfg: Config, s: State, x: Handler, seemsAlive: bool) {
    && x.attempt in s.claims
    && var holder := s.claims[x.attempt].process;
       if cfg.host(holder) != cfg.host(x.process) then cfg.domain
       else holder !in s.dead || seemsAlive
  }

  function Goto(s: State, h: nat, pc: Pc): State
    requires h in s.handlers
  {
    s.(handlers := s.handlers[h := s.handlers[h].(pc := pc)])
  }

  predicate RunActive(x: Handler) {
    x.pc.Running? || x.pc.Ran?
  }

  /** A run of the attempt of interest that ends here without its outcome being stored. */
  function Lose(cfg: Config, s: State, x: Handler): State {
    if x.attempt == cfg.focus && RunActive(x) then s.(lost := s.lost + 1) else s
  }

  /** The handler leaves; what its `finally` does to the claim depends on `releases`. */
  function Leave(cfg: Config, s: State, h: nat): State
    requires h in s.handlers
  {
    var x := s.handlers[h];
    var t := s.(handlers := s.handlers - {h});
    if cfg.releases && x.owned && x.attempt in s.claims && s.claims[x.attempt].handler == h
    then t.(claims := s.claims - {x.attempt})
    else t
  }

  /** Runs of the attempt of interest that a process is executing. */
  function ActiveOn(cfg: Config, s: State, p: nat): set<nat> {
    set h | h in s.handlers && s.handlers[h].process == p && s.handlers[h].attempt == cfg.focus && RunActive(s.handlers[h])
  }

  function Step(cfg: Config, s: State, h: nat, a: Action): State
    requires Enabled(s, h, a)
  {
    match a
    case Deliver(attempt, p) => s.(handlers := s.handlers[h := Handler(attempt, p, Arrived, false)])
    case Die(p) =>
      s.(dead := s.dead + {p},
         handlers := map g | g in s.handlers && s.handlers[g].process != p :: s.handlers[g],
         lost := s.lost + |ActiveOn(cfg, s, p)|)
    case Cancel(p) => s.(cancelled := s.cancelled + {p})
    case DeliveryStep(r) => s.(record := r)
    case Compact(olderThan) =>
      var r := CompactChange(s.record, olderThan);
      s.(record := r, compacted := if r == s.record then s.compacted else s.compacted + 1)
    case _ => HandlerStep(cfg, s, h, a)
  }

  function HandlerStep(cfg: Config, s: State, h: nat, a: Action): State
    requires h in s.handlers && ReadyFor(s.handlers[h].pc, a)
  {
    var x := s.handlers[h];
    match a
    case Refuse => Goto(s, h, Refusing)
    case StoreRefusal(fp, content) =>
      Goto(s, h, Acking(Persisted, s.compacted)).(record := StoreChange(s.record, x.attempt, fp, content))
    case Look => Goto(s, h, if Settled(s.record, x.attempt) then Acking(Answered(s.record), s.compacted) else Unsettled)
    case SeeCancelled => Goto(Lose(cfg, s, x), h, Acking(WasCancelled, s.compacted))
    case Acquire(seemsAlive) =>
      if Blocked(cfg, s, x, seemsAlive) then Leave(cfg, s, h)
      else
        s.(claims := s.claims[x.attempt := ExecutionClaim(h, x.process)],
           handlers := s.handlers[h := x.(pc := Owned, owned := true)],
           acquired := if x.attempt == cfg.focus then s.acquired + {x.process} else s.acquired)
    case LookAgain => Goto(s, h, if Settled(s.record, x.attempt) then Acking(Answered(s.record), s.compacted) else Checked)
    case Run => Goto(s, h, Running).(runs := if x.attempt == cfg.focus then s.runs + 1 else s.runs)
    case CancelRun => Goto(Lose(cfg, s, x), h, Acking(WasCancelled, s.compacted))
    case Return(content) => Goto(s, h, Ran(content))
    case Persist(fp) =>
      Goto(s, h, Acking(Persisted, s.compacted)).(
        record := StoreChange(s.record, x.attempt, fp, x.pc.content),
        persisted := if x.attempt == cfg.focus then s.persisted + 1 else s.persisted)
    case Fail => Leave(cfg, Lose(cfg, s, x), h)
    case Ack => Leave(cfg, s, h)
  }

  ghost predicate Reaches(cfg: Config, s: State, run: seq<(nat, Action)>, t: State)
    decreases run
  {
    if run == [] then s == t
    else Enabled(s, run[0].0, run[0].1) && Reaches(cfg, Step(cfg, s, run[0].0, run[0].1), run[1..], t)
  }

  const START := State(Absent, map[], map[], {}, {}, 0, 0, 0, 0, {})

  // ----- What the deciding steps decide -----

  /** The record already answers this dispatch: an outcome of its attempt or a later one, or any success. */
  predicate AnsweredBy(r: OutcomeRecord, attempt: nat) {
    r.Live? && (r.attempt >= attempt || r.content.success)
  }

  /** Both looks stop a dispatch exactly if the record answers it, so a success is never run again under any attempt. */
  lemma LookDecides(cfg: Config, s: State, h: nat, a: Action)
    requires Enabled(s, h, a) && (a.Look? || a.LookAgain?)
    ensures
      var x, t := s.handlers[h], Step(cfg, s, h, a);
      && h in t.handlers && t.record == s.record && t.claims == s.claims
      && t.handlers[h] == x.(pc := if AnsweredBy(s.record, x.attempt) then Acking(Answered(s.record), s.compacted)
                                   else if a.Look? then Unsettled else Checked)
  {
  }

  /**
  An acquire is refused exactly if the attempt is claimed from another host and is an inference task, or is claimed on
  this host by a process that is alive or seems to be. A refused dispatch leaves without acknowledging; a granted one
  owns the claim. The death of a holder on another host does not free an inference attempt.
  */
  lemma AcquireDecides(cfg: Config, s: State, h: nat, seemsAlive: bool)
    requires Enabled(s, h, Acquire(seemsAlive)) && !s.handlers[h].owned
    ensures
      var x, t := s.handlers[h], Step(cfg, s, h, Acquire(seemsAlive));
      var held := x.attempt in s.claims;
      var foreign := held && cfg.host(s.claims[x.attempt].process) != cfg.host(x.process);
      var refused := (foreign && cfg.domain) || (held && !foreign && (s.claims[x.attempt].process !in s.dead || seemsAlive));
      if refused then t.claims == s.claims && t.handlers == s.handlers - {h}
      else
        && t.claims == s.claims[x.attempt := ExecutionClaim(h, x.process)]
        && h in t.handlers && t.handlers[h] == x.(pc := Owned, owned := true)
  {
  }

  /** An outcome offered under an attempt the record does not reach yet becomes the record, with the content it had. */
  lemma OfferDecides(cfg: Config, s: State, h: nat, a: Action)
    requires Enabled(s, h, a) && (a.Persist? || a.StoreRefusal?)
    ensures
      var x, t := s.handlers[h], Step(cfg, s, h, a);
      var content := if a.Persist? then x.pc.content else a.content;
      && h in t.handlers && t.handlers[h].pc == Acking(Persisted, s.compacted)
      && (if s.record.Live? && s.record.attempt >= x.attempt then t.record == s.record
          else t.record.Live? && t.record.attempt == x.attempt && t.record.content == content && !t.record.delivered)
  {
  }

  // ----- Claims exclude -----

  /** Handlers live on living processes, and a handler that owns its attempt is the one the claim names. */
  ghost predicate HandlerOk(s: State, h: nat, x: Handler) {
    && x.process !in s.dead
    && (x.pc.Owned? || x.pc.Checked? || RunActive(x) ==> x.owned)
    && (x.owned ==> x.attempt in s.claims && s.claims[x.attempt] == ExecutionClaim(h, x.process))
  }

  ghost predicate ClaimsExclude(s: State) {
    forall h :: h in s.handlers ==> HandlerOk(s, h, s.handlers[h])
  }

  /** A live owner blocks every acquire of its attempt. */
  lemma OwnerBlocks(cfg: Config, s: State, h: nat, seemsAlive: bool, g: nat)
    requires Excluding(cfg) && ClaimsExclude(s) && h in s.handlers
    requires g in s.handlers && s.handlers[g].owned && s.handlers[g].attempt == s.handlers[h].attempt
    ensures Blocked(cfg, s, s.handlers[h], seemsAlive)
  {
  }

  lemma StepKeepsExclusion(cfg: Config, s: State, h: nat, a: Action)
    requires Excluding(cfg) && ClaimsExclude(s) && Enabled(s, h, a)
    ensures ClaimsExclude(Step(cfg, s, h, a))
  {
    var t := Step(cfg, s, h, a);
    forall g | g in t.handlers ensures HandlerOk(t, g, t.handlers[g]) {
      if g in s.handlers { assert HandlerOk(s, g, s.handlers[g]); }
      if a.Acquire? && s.handlers[g].owned && s.handlers[g].attempt == s.handlers[h].attempt {
        OwnerBlocks(cfg, s, h, a.seemsAlive, g);
      }
    }
  }

  /** Two live handlers never execute, or hold a right to execute, the same attempt. */
  lemma OneOwnerPerAttempt(s: State, g: nat, h: nat)
    requires ClaimsExclude(s) && g in s.handlers && h in s.handlers
    requires s.handlers[g].owned && s.handlers[h].owned && s.handlers[g].attempt == s.handlers[h].attempt
    ensures g == h
  {
  }

  // ----- The count of runs -----

  function Active(cfg: Config, s: State): set<nat> {
    set h | h in s.handlers && s.handlers[h].attempt == cfg.focus && RunActive(s.handlers[h])
  }

  predicate PastCheck(x: Handler) {
    x.pc.Checked? || RunActive(x)
  }

  /** Handlers of the attempt between the second check and the end of their run. */
  function Past(cfg: Config, s: State): set<nat> {
    set h | h in s.handlers && s.handlers[h].attempt == cfg.focus && PastCheck(s.handlers[h])
  }

  /** While the record answers for the attempt, one persist is not made up for by a compaction yet. */
  ghost predicate PersistCloses(cfg: Config, s: State) {
    && s.persisted <= s.compacted + (if StoredAttempt(s.record) >= cfg.focus then 1 else 0)
    && s.persisted + |Past(cfg, s)| <= s.compacted + 1
  }

  /** Every run was lost, is still going on, or was persisted. */
  ghost predicate RunsAccounted(cfg: Config, s: State) {
    s.runs == s.lost + |Active(cfg, s)| + s.persisted
  }

  ghost predicate Inv(cfg: Config, s: State) {
    ClaimsExclude(s) && PersistCloses(cfg, s) && RunsAccounted(cfg, s)
  }

  /** All steps but a death touch at most the one handler that takes them. */
  lemma StepTouchesOne(cfg: Config, s: State, h: nat, a: Action)
    requires Enabled(s, h, a) && !a.Die?
    ensures Step(cfg, s, h, a).handlers - {h} == s.handlers - {h}
  {
  }

  lemma AtMostOnePast(cfg: Config, s: State)
    requires ClaimsExclude(s)
    ensures |Past(cfg, s)| <= 1
  {
    var past := Past(cfg, s);
    if past != {} {
      var g :| g in past;
      forall h | h in past ensures h == g {
        assert HandlerOk(s, g, s.handlers[g]) && HandlerOk(s, h, s.handlers[h]);
        OneOwnerPerAttempt(s, g, h);
      }
      assert past == {g};
    }
  }

  lemma PastByOne(cfg: Config, s: State, h: nat, a: Action)
    requires Enabled(s, h, a) && !a.Die?
    ensures
      var was, now := Past(cfg, s), Past(cfg, Step(cfg, s, h, a));
      |now| == |was| + (if h in now then 1 else 0) - (if h in was then 1 else 0)
  {
    var t := Step(cfg, s, h, a);
    StepTouchesOne(cfg, s, h, a);
    var was, now := Past(cfg, s), Past(cfg, t);
    assert now - {h} == was - {h} by {
      forall g | g != h ensures g in now <==> g in was {
        assert g in t.handlers - {h} <==> g in s.handlers - {h};
        if g in s.handlers { assert (t.handlers - {h})[g] == (s.handlers - {h})[g]; }
      }
    }
    SizeByOne(now, was, h);
  }

  lemma StepKeepsPersistClosed(cfg: Config, s: State, h: nat, a: Action)
    requires PersistCloses(cfg, s) && Enabled(s, h, a) && ClaimsExclude(Step(cfg, s, h, a))
    ensures PersistCloses(cfg, Step(cfg, s, h, a))
  {
    var t := Step(cfg, s, h, a);
    if a.Die? {
      SubsetSize(Past(cfg, t), Past(cfg, s));
    } else {
      AtMostOnePast(cfg, t);
      PastByOne(cfg, s, h, a);
    }
  }

  lemma ActiveByOne(cfg: Config, s: State, h: nat, a: Action)
    requires Enabled(s, h, a) && !a.Die?
    ensures
      var was, now := Active(cfg, s), Active(cfg, Step(cfg, s, h, a));
      |now| == |was| + (if h in now then 1 else 0) - (if h in was then 1 else 0)
  {
    var t := Step(cfg, s, h, a);
    StepTouchesOne(cfg, s, h, a);
    var was, now := Active(cfg, s), Active(cfg, t);
    assert now - {h} == was - {h} by {
      forall g | g != h ensures g in now <==> g in was {
        assert g in t.handlers - {h} <==> g in s.handlers - {h};
        if g in s.handlers { assert (t.handlers - {h})[g] == (s.handlers - {h})[g]; }
      }
    }
    SizeByOne(now, was, h);
  }

  lemma ActiveAfterDeath(cfg: Config, s: State, h: nat, p: nat)
    requires p !in s.dead
    ensures Active(cfg, Step(cfg, s, h, Die(p))) == Active(cfg, s) - ActiveOn(cfg, s, p)
    ensures ActiveOn(cfg, s, p) <= Active(cfg, s)
  {
  }

  lemma DeathKeepsAccount(cfg: Config, s: State, h: nat, p: nat)
    requires RunsAccounted(cfg, s) && p !in s.dead
    ensures RunsAccounted(cfg, Step(cfg, s, h, Die(p)))
  {
    ActiveAfterDeath(cfg, s, h, p);
    SizeWithout(Active(cfg, s), ActiveOn(cfg, s, p));
  }

  lemma StepKeepsAccount(cfg: Config, s: State, h: nat, a: Action)
    requires Inv(cfg, s) && Enabled(s, h, a)
    ensures RunsAccounted(cfg, Step(cfg, s, h, a))
  {
    if a.Die? {
      DeathKeepsAccount(cfg, s, h, a.process);
    } else {
      ActiveByOne(cfg, s, h, a);
    }
  }

  lemma StepKeepsInv(cfg: Config, s: State, h: nat, a: Action)
    requires Excluding(cfg) && Inv(cfg, s) && Enabled(s, h, a)
    ensures Inv(cfg, Step(cfg, s, h, a))
  {
    StepKeepsExclusion(cfg, s, h, a);
    StepKeepsPersistClosed(cfg, s, h, a);
    StepKeepsAccount(cfg, s, h, a);
  }

  lemma {:induction false} RunKeepsInv(cfg: Config, s: State, run: seq<(nat, Action)>, t: State)
    requires Excluding(cfg) && Inv(cfg, s) && Reaches(cfg, s, run, t)
    ensures Inv(cfg, t)
    decreases run
  {
    if run != [] {
      StepKeepsInv(cfg, s, run[0].0, run[0].1);
      RunKeepsInv(cfg, Step(cfg, s, run[0].0, run[0].1), run[1..], t);
    }
  }

  lemma StartOk(cfg: Config)
    ensures Inv(cfg, START)
  {
  }

  /**
  Over every interleaving, an attempt runs at most once plus once for each of its runs that a death, a cancellation or
  a failed persist ended, plus once for each compaction of the record.
  */
  lemma RunsAtMostOncePlusLosses(cfg: Config, run: seq<(nat, Action)>, t: State)
    requires Excluding(cfg) && Reaches(cfg, START, run, t)
    ensures t.runs <= 1 + t.lost + t.compacted
  {
    StartOk(cfg);
    RunKeepsInv(cfg, START, run, t);
    SubsetSize(Active(cfg, t), Past(cfg, t));
  }

  /**
  A run of an attempt starts only if every persisted run of it was compacted away: without compaction the second check
  closes the race.
  */
  lemma NoRunAfterPersist(cfg: Config, run: seq<(nat, Action)>, t: State, h: nat)
    requires Excluding(cfg) && Reaches(cfg, START, run, t)
    requires Enabled(t, h, Run) && t.handlers[h].attempt == cfg.focus
    ensures t.persisted <= t.compacted
  {
    StartOk(cfg);
    RunKeepsInv(cfg, START, run, t);
    assert h in Past(cfg, t);
  }

  // ----- The claim as the worker leaves it -----

  /** Owners that have not started their run yet. */
  function Waiting(cfg: Config, s: State): set<nat> {
    set h | h in s.handlers && s.handlers[h].attempt == cfg.focus && (s.handlers[h].pc.Owned? || s.handlers[h].pc.Checked?)
  }

  /** A claim is only ever replaced after its process died, so each process acquires an attempt at most once. */
  ghost predicate OncePerProcess(cfg: Config, s: State) {
    && (forall p :: p in s.acquired ==> p in s.dead || (cfg.focus in s.claims && s.claims[cfg.focus].process == p))
    && s.runs + |Waiting(cfg, s)| <= |s.acquired|
  }

  lemma WaitingByOne(cfg: Config, s: State, h: nat, a: Action)
    requires Enabled(s, h, a) && !a.Die?
    ensures
      var was, now := Waiting(cfg, s), Waiting(cfg, Step(cfg, s, h, a));
      |now| == |was| + (if h in now then 1 else 0) - (if h in was then 1 else 0)
  {
    var t := Step(cfg, s, h, a);
    StepTouchesOne(cfg, s, h, a);
    var was, now := Waiting(cfg, s), Waiting(cfg, t);
    assert now - {h} == was - {h} by {
      forall g | g != h ensures g in now <==> g in was {
        assert g in t.handlers - {h} <==> g in s.handlers - {h};
        if g in s.handlers { assert (t.handlers - {h})[g] == (s.handlers - {h})[g]; }
      }
    }
    SizeByOne(now, was, h);
  }

  /** A claim changes hands only to a process that never held it. */
  lemma AcquireIsFirst(cfg: Config, s: State, h: nat, a: Action)
    requires Excluding(cfg) && Inv(cfg, s) && OncePerProcess(cfg, s) && Enabled(s, h, a)
    requires a.Acquire? && s.handlers[h].attempt == cfg.focus && !Blocked(cfg, s, s.handlers[h], a.seemsAlive)
    ensures s.handlers[h].process !in s.acquired
    ensures forall p :: p in s.acquired ==> p in s.dead
  {
  }

  lemma StepKeepsHolders(cfg: Config, s: State, h: nat, a: Action)
    requires Excluding(cfg) && !cfg.releases && Inv(cfg, s) && OncePerProcess(cfg, s) && Enabled(s, h, a)
    ensures
      var t := Step(cfg, s, h, a);
      forall p :: p in t.acquired ==> p in t.dead || (cfg.focus in t.claims && t.claims[cfg.focus].process == p)
  {
    if a.Acquire? && s.handlers[h].attempt == cfg.focus && !Blocked(cfg, s, s.handlers[h], a.seemsAlive) {
      AcquireIsFirst(cfg, s, h, a);
    }
  }

  /** Any step but a death and an acquire of the attempt moves at most one owner on to its run. */
  lemma StepKeepsCount(cfg: Config, s: State, h: nat, a: Action)
    requires Enabled(s, h, a) && !a.Die? && !(a.Acquire? && s.handlers[h].attempt == cfg.focus)
    ensures
      var t := Step(cfg, s, h, a);
      t.runs + |Waiting(cfg, t)| <= s.runs + |Waiting(cfg, s)| && t.acquired == s.acquired
  {
    WaitingByOne(cfg, s, h, a);
  }

  lemma AcquireKeepsCount(cfg: Config, s: State, h: nat, a: Action)
    requires Excluding(cfg) && Inv(cfg, s) && OncePerProcess(cfg, s) && Enabled(s, h, a)
    requires a.Acquire? && s.handlers[h].attempt == cfg.focus
    ensures
      var t := Step(cfg, s, h, a);
      t.runs + |Waiting(cfg, t)| <= |t.acquired|
  {
    WaitingByOne(cfg, s, h, a);
    if !Blocked(cfg, s, s.handlers[h], a.seemsAlive) { AcquireIsFirst(cfg, s, h, a); }
  }

  lemma DeathKeepsCount(cfg: Config, s: State, h: nat, p: nat)
    requires p !in s.dead
    ensures |Waiting(cfg, Step(cfg, s, h, Die(p)))| <= |Waiting(cfg, s)|
  {
    SubsetSize(Waiting(cfg, Step(cfg, s, h, Die(p))), Waiting(cfg, s));
  }

  lemma StepKeepsOncePerProcess(cfg: Config, s: State, h: nat, a: Action)
    requires Excluding(cfg) && !cfg.releases && Inv(cfg, s) && OncePerProcess(cfg, s) && Enabled(s, h, a)
    ensures OncePerProcess(cfg, Step(cfg, s, h, a))
  {
    StepKeepsHolders(cfg, s, h, a);
    if a.Die? {
      DeathKeepsCount(cfg, s, h, a.process);
    } else if a.Acquire? && s.handlers[h].attempt == cfg.focus {
      AcquireKeepsCount(cfg, s, h, a);
    } else {
      StepKeepsCount(cfg, s, h, a);
    }
  }

  lemma {:induction false} RunKeepsOncePerProcess(cfg: Config, s: State, run: seq<(nat, Action)>, t: State)
    requires Excluding(cfg) && !cfg.releases && Inv(cfg, s) && OncePerProcess(cfg, s) && Reaches(cfg, s, run, t)
    ensures OncePerProcess(cfg, t)
    decreases run
  {
    if run != [] {
      StepKeepsInv(cfg, s, run[0].0, run[0].1);
      StepKeepsOncePerProcess(cfg, s, run[0].0, run[0].1);
      RunKeepsOncePerProcess(cfg, Step(cfg, s, run[0].0, run[0].1), run[1..], t);
    }
  }

  /**
  With the release that misses its claim, an attempt runs at most once plus once per dead process, whatever is
  cancelled or fails.
  */
  lemma RunsAtMostOncePlusDeaths(cfg: Config, run: seq<(nat, Action)>, t: State)
    requires Excluding(cfg) && !cfg.releases && Reaches(cfg, START, run, t)
    ensures t.runs <= 1 + |t.dead|
  {
    StartOk(cfg);
    assert Waiting(cfg, START) == {};
    RunKeepsOncePerProcess(cfg, START, run, t);
    var holder := if cfg.focus in t.claims then {t.claims[cfg.focus].process} else {};
    SubsetSize(t.acquired, t.dead + holder);
  }

  /**
  The price: a claim outlives its handler. While its process lives, every later acquire of the attempt is refused,
  even after a persist that failed and was never acknowledged.
  */
  lemma {:induction false} ClaimHeldUntilDeath(cfg: Config, s: State, run: seq<(nat, Action)>, t: State, attempt: nat)
    requires Excluding(cfg) && !cfg.releases && Reaches(cfg, s, run, t)
    requires attempt in s.claims && s.claims[attempt].process !in t.dead
    ensures attempt in t.claims && t.claims[attempt] == s.claims[attempt]
    ensures forall h, alive :: h in t.handlers && t.handlers[h].attempt == attempt ==> Blocked(cfg, t, t.handlers[h], alive)
    decreases run
  {
    if run != [] {
      var next := Step(cfg, s, run[0].0, run[0].1);
      DeathsRemain(cfg, next, run[1..], t);
      ClaimHeldUntilDeath(cfg, next, run[1..], t, attempt);
    }
  }

  lemma {:induction false} DeathsRemain(cfg: Config, s: State, run: seq<(nat, Action)>, t: State)
    requires Reaches(cfg, s, run, t)
    ensures s.dead <= t.dead
    decreases run
  {
    if run != [] { DeathsRemain(cfg, Step(cfg, s, run[0].0, run[0].1), run[1..], t); }
  }

  // ----- Acknowledgement -----

  /** The later record answers for a higher attempt, or for the same one with the same content. */
  predicate Follows(was: OutcomeRecord, now: OutcomeRecord) {
    was.Live? ==> now.Live? && now.attempt >= was.attempt && (now.attempt == was.attempt ==> now.content == was.content)
  }

  /** Unless the record was compacted since, what an acknowledgement was decided on still holds of it. */
  ghost predicate AckOk(s: State, x: Handler) {
    match x.pc
    case Acking(why, since) =>
      since <= s.compacted &&
      (since == s.compacted ==>
         match why
         case Persisted => StoredAttempt(s.record) >= x.attempt
         case Answered(seen) => Settled(seen, x.attempt) && seen.Live? && Follows(seen, s.record)
         case WasCancelled => true)
    case _ => true
  }

  ghost predicate AcksOk(s: State) {
    forall h :: h in s.handlers ==> AckOk(s, s.handlers[h])
  }

  lemma StepFollows(cfg: Config, s: State, h: nat, a: Action)
    requires Enabled(s, h, a)
    ensures var t := Step(cfg, s, h, a); t.compacted >= s.compacted && (t.compacted == s.compacted ==> Follows(s.record, t.record))
  {
  }

  lemma StepKeepsAck(cfg: Config, s: State, h: nat, a: Action, g: nat)
    requires Enabled(s, h, a) && (g in s.handlers ==> AckOk(s, s.handlers[g]))
    ensures var t := Step(cfg, s, h, a); g in t.handlers ==> AckOk(t, t.handlers[g])
  {
    StepFollows(cfg, s, h, a);
  }

  lemma {:induction false} RunKeepsAcks(cfg: Config, s: State, run: seq<(nat, Action)>, t: State)
    requires AcksOk(s) && Reaches(cfg, s, run, t)
    ensures AcksOk(t)
    decreases run
  {
    if run != [] {
      forall g { StepKeepsAck(cfg, s, run[0].0, run[0].1, g); }
      RunKeepsAcks(cfg, Step(cfg, s, run[0].0, run[0].1), run[1..], t);
    }
  }

  lemma {:induction false} RunFollows(cfg: Config, s: State, run: seq<(nat, Action)>, t: State)
    requires Reaches(cfg, s, run, t)
    ensures t.compacted >= s.compacted && (t.compacted == s.compacted ==> Follows(s.record, t.record))
    decreases run
  {
    if run != [] {
      StepFollows(cfg, s, run[0].0, run[0].1);
      RunFollows(cfg, Step(cfg, s, run[0].0, run[0].1), run[1..], t);
    }
  }

  predicate Succeeded(r: OutcomeRecord) {
    r.Live? && r.content.success
  }

  /**
  On every path and interleaving a dispatch is acknowledged only if it was cancelled or the record settles it at that
  moment, with two exceptions: it was answered by the success of a lower attempt, and a failure of an attempt in
  between replaced that success before the acknowledgement; or the record was compacted since the decision.
  */
  lemma AckIsJustified(cfg: Config, run: seq<(nat, Action)>, t: State, h: nat)
    requires Reaches(cfg, START, run, t) && Enabled(t, h, Ack)
    ensures
      var x := t.handlers[h];
      || t.compacted > x.pc.since
      || x.pc.why.WasCancelled?
      || Settled(t.record, x.attempt)
      || (x.pc.why.Answered? && Succeeded(x.pc.why.seen) && !Succeeded(t.record)
          && StoredAttempt(x.pc.why.seen) < StoredAttempt(t.record) < x.attempt)
  {
    RunKeepsAcks(cfg, START, run, t);
    assert AckOk(t, t.handlers[h]);
  }

  /**
  Once the record's attempt reaches a dispatch's, the dispatch stays settled in every continuation without compaction.
  */
  lemma SettledForever(cfg: Config, s: State, run: seq<(nat, Action)>, t: State, attempt: nat)
    requires Reaches(cfg, s, run, t) && t.compacted == s.compacted
    requires StoredAttempt(s.record) >= attempt
    ensures StoredAttempt(t.record) >= attempt && Settled(t.record, attempt)
  {
    RunFollows(cfg, s, run, t);
  }

  // ----- The limits of these results -----

  /**
  The exception in `AckIsJustified` happens: from every state whose record is a success of attempt `n`, a dispatch of
  any attempt past `n + 1` can be answered by it and be about to be acknowledged when a refusal of attempt `n + 1`
  has replaced the success.
  */
  lemma AnswerCanBeOvertaken(cfg: Config, s: State, n: nat, attempt: nat, p: nat, g: nat, h: nat, refusal: Content)
    returns (run: seq<(nat, Action)>, t: State)
    requires Succeeded(s.record) && s.record.attempt == n && attempt > n + 1
    requires p !in s.dead && g != h && g !in s.handlers && h !in s.handlers && !refusal.success
    ensures Reaches(cfg, s, run, t) && Enabled(t, h, Ack)
    ensures t.handlers[h].attempt == attempt && t.handlers[h].pc.why.Answered? && !Settled(t.record, attempt)
  {
    var s1 := Step(cfg, s, h, Deliver(attempt, p));
    var s2 := Step(cfg, s1, h, Look);
    t := RefusalReplaces(cfg, s2, n + 1, p, g, refusal);
    var rest: seq<(nat, Action)> := [(g, Deliver(n + 1, p)), (g, Refuse), (g, StoreRefusal("", refusal))];
    run := [(h, Deliver(attempt, p)), (h, Look)] + rest;
    assert Reaches(cfg, s1, run[1..], t) by { assert run[1..][1..] == rest; }
  }

  /** A refusal of a higher attempt replaces the record whatever it was, and leaves the other handlers alone. */
  lemma RefusalReplaces(cfg: Config, s: State, attempt: nat, p: nat, g: nat, refusal: Content) returns (t: State)
    requires s.record.Live? && attempt > s.record.attempt && !refusal.success
    requires p !in s.dead && g !in s.handlers
    ensures Reaches(cfg, s, [(g, Deliver(attempt, p)), (g, Refuse), (g, StoreRefusal("", refusal))], t)
    ensures t.record.Live? && t.record.attempt == attempt && t.record.content == refusal
    ensures forall h :: h in s.handlers ==> h in t.handlers && t.handlers[h] == s.handlers[h]
  {
    var s1 := Step(cfg, s, g, Deliver(attempt, p));
    var s2 := Step(cfg, s1, g, Refuse);
    t := Step(cfg, s2, g, StoreRefusal("", refusal));
    var run: seq<(nat, Action)> := [(g, Deliver(attempt, p)), (g, Refuse), (g, StoreRefusal("", refusal))];
    assert Reaches(cfg, t, [], t);
    assert Reaches(cfg, s2, run[2..], t) by { assert run[2..][1..] == []; }
    assert Reaches(cfg, s1, run[1..], t) by { assert run[1..][1..] == run[2..]; }
  }

  /**
  Without exclusion the bound fails: for a subtask that is no inference task, a redelivery on another host takes the
  claim of a live, running owner, and two runs of one attempt go on at once.
  */
  lemma OtherHostRunsToo(cfg: Config, s: State, g: nat, h: nat) returns (run: seq<(nat, Action)>, t: State)
    requires !cfg.domain && g in s.handlers && h in s.handlers
    requires cfg.host(s.handlers[g].process) != cfg.host(s.handlers[h].process)
    requires s.handlers[g].attempt == s.handlers[h].attempt && s.handlers[g].pc.Running?
    requires s.handlers[g].attempt in s.claims && s.claims[s.handlers[g].attempt] == ExecutionClaim(g, s.handlers[g].process)
    requires s.handlers[h].pc.Unsettled? && !Settled(s.record, s.handlers[h].attempt)
    ensures Reaches(cfg, s, run, t) && t.dead == s.dead
    ensures g in t.handlers && h in t.handlers && g != h && t.handlers[g].attempt == t.handlers[h].attempt
    ensures t.handlers[g].pc.Running? && t.handlers[h].pc.Running?
  {
    var s1 := Step(cfg, s, h, Acquire(true));
    var s2 := Step(cfg, s1, h, LookAgain);
    t := Step(cfg, s2, h, Run);
    run := [(h, Acquire(true)), (h, LookAgain), (h, Run)];
    assert Reaches(cfg, t, [], t);
    assert Reaches(cfg, s2, run[2..], t) by { assert run[2..][1..] == []; }
    assert Reaches(cfg, s1, run[1..], t) by { assert run[1..][1..] == run[2..]; }
  }

  // ----- What compaction costs -----

  lemma {:induction false} ReachesAppend(cfg: Config, s: State, a: seq<(nat, Action)>, m: State, b: seq<(nat, Action)>, t: State)
    requires Reaches(cfg, s, a, m) && Reaches(cfg, m, b, t)
    ensures Reaches(cfg, s, a + b, t)
    decreases a
  {
    if a == [] {
      assert a + b == b;
    } else {
      assert (a + b)[1..] == a[1..] + b;
      ReachesAppend(cfg, Step(cfg, s, a[0].0, a[0].1), a[1..], m, b, t);
    }
  }

  lemma ReachesInTwo(cfg: Config, s: State, g: nat, a: Action, h: nat, b: Action) returns (run: seq<(nat, Action)>, t: State)
    requires Enabled(s, g, a) && Enabled(Step(cfg, s, g, a), h, b)
    ensures Reaches(cfg, s, run, t) && t == Step(cfg, Step(cfg, s, g, a), h, b)
  {
    var m := Step(cfg, s, g, a);
    t := Step(cfg, m, h, b);
    run := [(g, a), (h, b)];
    assert Reaches(cfg, t, [], t);
    assert Reaches(cfg, m, run[1..], t) by { assert run[1..][1..] == []; }
  }

  lemma Arrives(cfg: Config, s: State, h: nat, p: nat) returns (run: seq<(nat, Action)>, t: State)
    requires h !in s.handlers && p !in s.dead && !Settled(s.record, cfg.focus)
    ensures Reaches(cfg, s, run, t)
    ensures t == s.(handlers := s.handlers[h := Handler(cfg.focus, p, Unsettled, false)])
  {
    run, t := ReachesInTwo(cfg, s, h, Deliver(cfg.focus, p), h, Look);
    assert t.handlers == s.handlers[h := Handler(cfg.focus, p, Unsettled, false)];
  }

  lemma Acquires(cfg: Config, s: State, h: nat) returns (run: seq<(nat, Action)>, t: State)
    requires h in s.handlers && s.handlers[h].pc.Unsettled? && s.handlers[h].attempt == cfg.focus
    requires !Settled(s.record, cfg.focus) && !Blocked(cfg, s, s.handlers[h], false)
    ensures Reaches(cfg, s, run, t)
    ensures var p := s.handlers[h].process;
      t == s.(handlers := s.handlers[h := Handler(cfg.focus, p, Checked, true)],
              claims := s.claims[cfg.focus := ExecutionClaim(h, p)], acquired := s.acquired + {p})
  {
    run, t := ReachesInTwo(cfg, s, h, Acquire(false), h, LookAgain);
    assert t.handlers == s.handlers[h := Handler(cfg.focus, s.handlers[h].process, Checked, true)];
  }

  /** A dispatch that nothing settles and no claim blocks arrives, acquires and passes both checks. */
  lemma GetsToRun(cfg: Config, s: State, h: nat, p: nat) returns (run: seq<(nat, Action)>, t: State)
    requires h !in s.handlers && p !in s.dead && !Settled(s.record, cfg.focus)
    requires !Blocked(cfg, s, Handler(cfg.focus, p, Unsettled, false), false)
    ensures Reaches(cfg, s, run, t)
    ensures t == s.(handlers := s.handlers[h := Handler(cfg.focus, p, Checked, true)],
                    claims := s.claims[cfg.focus := ExecutionClaim(h, p)], acquired := s.acquired + {p})
  {
    var a, m := Arrives(cfg, s, h, p);
    var b;
    b, t := Acquires(cfg, m, h);
    run := a + b;
    ReachesAppend(cfg, s, a, m, b, t);
    assert m.handlers[h := Handler(cfg.focus, p, Checked, true)] == s.handlers[h := Handler(cfg.focus, p, Checked, true)];
  }

  /** The run, its outcome persisted. */
  lemma RunsAndPersists(cfg: Config, s: State, h: nat, content: Content) returns (run: seq<(nat, Action)>, t: State)
    requires h in s.handlers && s.handlers[h].pc.Checked? && s.handlers[h].attempt == cfg.focus && s.record.Absent?
    ensures Reaches(cfg, s, run, t)
    ensures t == s.(record := Fresh(cfg.focus, "", content, None), runs := s.runs + 1, persisted := s.persisted + 1,
                    handlers := s.handlers[h := s.handlers[h].(pc := Acking(Persisted, s.compacted))])
  {
    var s1 := Step(cfg, s, h, Run);
    var s2 := Step(cfg, s1, h, Return(content));
    t := Step(cfg, s2, h, Persist(""));
    run := [(h, Run), (h, Return(content)), (h, Persist(""))];
    assert Reaches(cfg, t, [], t);
    assert Reaches(cfg, s2, run[2..], t) by { assert run[2..][1..] == []; }
    assert Reaches(cfg, s1, run[1..], t) by { assert run[1..][1..] == run[2..]; }
    assert t.handlers == s.handlers[h := s.handlers[h].(pc := Acking(Persisted, s.compacted))];
  }

  lemma DeliveredAndAcked(cfg: Config, s: State, h: nat, at: real) returns (run: seq<(nat, Action)>, t: State)
    requires s.record.Live? && h in s.handlers && s.handlers[h].pc.Acking? && !cfg.releases
    ensures Reaches(cfg, s, run, t)
    ensures t == s.(record := s.record.(delivered := true, deliveredAt := at), handlers := s.handlers - {h})
  {
    run, t := ReachesInTwo(cfg, s, h, DeliveryStep(s.record.(delivered := true, deliveredAt := at)), h, Ack);
  }

  lemma CompactedAndDead(cfg: Config, s: State, p: nat) returns (run: seq<(nat, Action)>, t: State)
    requires s.record.Live? && s.record.delivered && s.handlers == map[] && p !in s.dead
    ensures Reaches(cfg, s, run, t)
    ensures t == s.(record := Tombstone(s.record.deliveredAt), dead := s.dead + {p}, compacted := s.compacted + 1)
  {
    var m := Step(cfg, s, 0, Compact(s.record.deliveredAt));
    run, t := ReachesInTwo(cfg, s, 0, Compact(s.record.deliveredAt), 0, Die(p));
    assert ActiveOn(cfg, m, p) == {} && t.handlers == map[];
  }

  /**
  The tombstone does not keep an old dispatch from executing: a run is persisted, delivered, acknowledged and compacted,
  its process ends, and a redelivery on that host gets to run the attempt again, though no run was ever lost.
  */
  lemma CompactionLetsItRunAgain(cfg: Config, p: nat, q: nat, content: Content, at: real)
    returns (run: seq<(nat, Action)>, t: State)
    requires p != q && cfg.host(p) == cfg.host(q) && !cfg.releases
    ensures Reaches(cfg, START, run, t) && Enabled(t, 1, Run) && t.handlers[1].attempt == cfg.focus
    ensures t.persisted == 1 && t.lost == 0 && t.compacted == 1 && Step(cfg, t, 1, Run).runs == 2
  {
    var a, s1 := GetsToRun(cfg, START, 0, p);
    var b, s2 := RunsAndPersists(cfg, s1, 0, content);
    var c, s3 := DeliveredAndAcked(cfg, s2, 0, at);
    assert s3.handlers == map[];
    var d;
    d, t := RunsAgain(cfg, s3, p, q);
    ReachesAppend(cfg, s2, c, s3, d, t);
    ReachesAppend(cfg, s1, b, s2, c + d, t);
    run := a + (b + (c + d));
    ReachesAppend(cfg, START, a, s1, b + (c + d), t);
  }

  lemma RunsAgain(cfg: Config, s: State, p: nat, q: nat) returns (run: seq<(nat, Action)>, t: State)
    requires s.record.Live? && s.record.delivered && s.handlers == map[] && s.dead == {}
    requires p != q && cfg.host(p) == cfg.host(q) && cfg.focus in s.claims && s.claims[cfg.focus].process == p
    ensures Reaches(cfg, s, run, t) && Enabled(t, 1, Run) && t.handlers[1].attempt == cfg.focus
    ensures t.runs == s.runs && t.persisted == s.persisted && t.lost == s.lost && t.compacted == s.compacted + 1
  {
    var a, m := CompactedAndDead(cfg, s, p);
    var b;
    b, t := GetsToRun(cfg, m, 1, q);
    run := a + b;
    ReachesAppend(cfg, s, a, m, b, t);
  }
}
