/** The durable effect ledger: the states one logical external operation goes through, whoever calls. */
module EffectLedger {
  import opened Prelude
  import opened RS = RuntimeState

  datatype EffectStatus = Prepared | InFlight | Confirmed | Failed | Unknown | Reconciling

  datatype Effect =
    | NoEffect
    | Effect(status: EffectStatus, owner: string, leaseUntil: real, attempts: nat, result: Option<string>)

  datatype EffectError = EffectBusy | EffectTransition

  predicate Allowed(from: EffectStatus, to: EffectStatus) {
    match from
    case Prepared => to == InFlight || to == Failed || to == Unknown
    case InFlight => to == Confirmed || to == Failed || to == Unknown
    case Unknown => to == Reconciling || to == Confirmed || to == Prepared
    case Reconciling => to == Confirmed || to == Prepared || to == Unknown
    case Failed => to == Prepared
    case Confirmed => false
  }

  datatype Call =
    | Prepare
    | MarkInFlight(owner: string, leaseSeconds: real)
    | Confirm(result: string)
    | Fail(result: string)
    | MarkUnknown
    | BeginReconcile(owner: string)
    | ResolveReconcile(applied: bool, result: string)

  function Moved(was: Effect, to: Effect): Result<Effect, EffectError>
    requires was.Effect? && to.Effect?
  {
    if Allowed(was.status, to.status) then Ok(to) else Err(EffectTransition)
  }

  /** What each ledger method does to the record, or how it raises. */
  function Change(was: Effect, c: Call, now: real): Result<Effect, EffectError> {
    if was.NoEffect? then
      if c.Prepare? then Ok(Effect(Prepared, "", 0.0, 0, None)) else Err(EffectTransition)
    else
      match c
      case Prepare =>
        if was.status == InFlight then
          if was.leaseUntil > now then Err(EffectBusy) else Moved(was, was.(status := Unknown))
        else if was.status == Failed then Moved(was, was.(status := Prepared))
        else Ok(was)
      case MarkInFlight(owner, lease) =>
        if was.status != Prepared then Err(EffectTransition)
        else Moved(was, was.(status := InFlight, owner := owner, leaseUntil := now + lease, attempts := was.attempts + 1))
      case Confirm(result) =>
        if was.status == Confirmed then Ok(was)
        else if was.status == Prepared || was.status == Failed then Err(EffectTransition)
        else Moved(was, was.(status := Confirmed, owner := "", leaseUntil := 0.0, result := Some(result)))
      case Fail(result) => Moved(was, was.(status := Failed, owner := "", leaseUntil := 0.0, result := Some(result)))
      case MarkUnknown => Moved(was, was.(status := Unknown, owner := "", leaseUntil := 0.0))
      case BeginReconcile(owner) =>
        if was.status != Unknown then Err(EffectTransition)
        else Moved(was, was.(status := Reconciling, owner := owner))
      case ResolveReconcile(applied, result) =>
        if was.status != Reconciling then Err(EffectTransition)
        else if applied then Moved(was, was.(status := Confirmed, owner := "", result := Some(result)))
        else Moved(was, was.(status := Prepared, owner := ""))
  }

  class EffectLedger {
    const state: RuntimeState<Effect>

    ghost predicate Valid()
      reads this, state
    {
      state.Valid() && state.empty == NoEffect
    }

    constructor (state: RuntimeState<Effect>)
      requires state.Valid() && state.empty == NoEffect
      ensures Valid() && this.state == state
    {
      this.state := state;
    }

    /** One ledger method call: the record moves as the protocol allows, or the call raises and nothing changes. */
    method Perform(effectId: string, c: Call, now: real) returns (res: Result<Effect, MutateError<EffectError>>)
      requires Valid()
      modifies state
      ensures Valid()
      ensures res == match Change(old(state.Get(effectId)), c, now)
                     case Ok(e) => Ok(e)
                     case Err(e) => Err(Raised(e))
      ensures state.Data() == if res.Ok? then old(state.Data())[effectId := res.value] else old(state.Data())
    {
      res := state.Mutate(effectId, r => Change(r, c, now), None, now);
    }
  }

  // ----- Traces: any calls, by anyone, at any times -----

  datatype Timed = Timed(call: Call, now: real)

  predicate Succeeds(e: Effect, c: Timed) {
    Change(e, c.call, c.now).Ok?
  }

  function After(e: Effect, c: Timed): Effect {
    match Change(e, c.call, c.now)
    case Ok(x) => x
    case Err(_) => e
  }

  /** The record after the first `n` calls of a trace. */
  function At(e: Effect, trace: seq<Timed>, n: nat): Effect
    requires n <= |trace|
  {
    if n == 0 then e else After(At(e, trace, n - 1), trace[n - 1])
  }

  /** Every move a method makes is one the transition table allows, and no method uses the Unknown to Prepared entry. */
  lemma MovesAreAllowed(e: Effect, c: Timed)
    requires e.Effect?
    ensures After(e, c).Effect?
    ensures After(e, c).status == e.status || Allowed(e.status, After(e, c).status)
    ensures !(e.status == Unknown && After(e, c).status == Prepared)
  {
  }

  predicate ReleasesGrant(e: Effect, c: Timed) {
    Succeeds(e, c) && (c.call.Fail? || (c.call.ResolveReconcile? && !c.call.applied))
  }

  predicate Granted(e: Effect) {
    e.Effect? && e.status != Prepared && e.status != Failed
  }

  lemma GrantStays(e: Effect, c: Timed)
    requires Granted(e) && !ReleasesGrant(e, c)
    ensures Granted(After(e, c))
  {
  }

  lemma {:induction false} GrantedUntilReleased(e: Effect, trace: seq<Timed>, i: nat, j: nat)
    requires i <= j <= |trace| && Granted(At(e, trace, i))
    requires forall k :: i <= k < j ==> !ReleasesGrant(At(e, trace, k), trace[k])
    ensures Granted(At(e, trace, j))
  {
    if i < j {
      GrantedUntilReleased(e, trace, i, j - 1);
      GrantStays(At(e, trace, j - 1), trace[j - 1]);
    }
  }

  /**
  Between two successful grants of one effect lies a definite failure or a reconciliation that found nothing applied.
  */
  lemma GrantsAreSeparated(e: Effect, trace: seq<Timed>, i: nat, j: nat)
    requires i < j < |trace|
    requires trace[i].call.MarkInFlight? && Succeeds(At(e, trace, i), trace[i])
    requires trace[j].call.MarkInFlight? && Succeeds(At(e, trace, j), trace[j])
    ensures exists k :: i < k < j && ReleasesGrant(At(e, trace, k), trace[k])
  {
    if forall k :: i < k < j ==> !ReleasesGrant(At(e, trace, k), trace[k]) {
      GrantedUntilReleased(e, trace, i + 1, j);
      assert false;
    }
  }

  lemma {:induction false} UnknownStays(e: Effect, trace: seq<Timed>, i: nat, j: nat)
    requires i <= j <= |trace| && At(e, trace, i).Effect? && At(e, trace, i).status in {Unknown, Confirmed}
    requires forall k :: i <= k <= j ==> At(e, trace, k).Effect? ==> At(e, trace, k).status != Reconciling
    ensures At(e, trace, j).Effect? && At(e, trace, j).status in {Unknown, Confirmed}
  {
    if i < j {
      UnknownStays(e, trace, i, j - 1);
      assert At(e, trace, j).Effect? ==> At(e, trace, j).status != Reconciling;
    }
  }

  /** An unknown outcome becomes retryable only by way of a reconciliation. */
  lemma UnknownIsReconciledFirst(e: Effect, trace: seq<Timed>, i: nat, j: nat)
    requires i <= j <= |trace|
    requires At(e, trace, i).Effect? && At(e, trace, i).status == Unknown
    requires At(e, trace, j).Effect? && At(e, trace, j).status == Prepared
    ensures exists k :: i < k < j && At(e, trace, k).Effect? && At(e, trace, k).status == Reconciling
  {
    if forall k :: i < k < j ==> At(e, trace, k).Effect? ==> At(e, trace, k).status != Reconciling {
      UnknownStays(e, trace, i, j);
      assert false;
    }
  }

  /** A confirmed effect, with its result, never changes again. */
  lemma {:induction false} ConfirmedIsFinal(e: Effect, trace: seq<Timed>, i: nat, j: nat)
    requires i <= j <= |trace| && At(e, trace, i).Effect? && At(e, trace, i).status == Confirmed
    ensures At(e, trace, j) == At(e, trace, i)
  {
    if i < j { ConfirmedIsFinal(e, trace, i, j - 1); }
  }

  // ----- What each call does, by the status it meets -----

  /** The statuses a call is accepted in, the status it leaves, and nothing about how. */
  predicate Accepts(e: Effect, c: Call, now: real) {
    match c
    case Prepare => e.NoEffect? || e.status != InFlight || e.leaseUntil <= now
    case MarkInFlight(_, _) => e.Effect? && e.status == Prepared
    case Confirm(_) => e.Effect? && e.status in {InFlight, Unknown, Reconciling, Confirmed}
    case Fail(_) => e.Effect? && e.status in {Prepared, InFlight}
    case MarkUnknown => e.Effect? && e.status in {Prepared, InFlight, Reconciling}
    case BeginReconcile(_) => e.Effect? && e.status == Unknown
    case ResolveReconcile(_, _) => e.Effect? && e.status == Reconciling
  }

  /** A call that is not accepted raises: busy under a live lease, otherwise as an illegal transition. */
  lemma AcceptedIff(e: Effect, c: Call, now: real)
    ensures Change(e, c, now).Ok? <==> Accepts(e, c, now)
    ensures Change(e, c, now) == Err(EffectBusy) <==> c.Prepare? && e.Effect? && e.status == InFlight && e.leaseUntil > now
  {
  }

  /** The record an accepted call leaves: who owns it, until when, how often it was granted and with what result. */
  lemma AcceptedLeaves(e: Effect, c: Call, now: real)
    requires Accepts(e, c, now)
    ensures
      var r := Change(e, c, now).value;
      && r.Effect?
      && (c.MarkInFlight? ==> r == Effect(InFlight, c.owner, now + c.leaseSeconds, e.attempts + 1, e.result))
      && (c.Confirm? && e.status != Confirmed ==> r == Effect(Confirmed, "", 0.0, e.attempts, Some(c.result)))
      && (c.Fail? ==> r == Effect(Failed, "", 0.0, e.attempts, Some(c.result)))
      && (c.MarkUnknown? ==> r == Effect(Unknown, "", 0.0, e.attempts, e.result))
      && (c.BeginReconcile? ==> r == Effect(Reconciling, c.owner, e.leaseUntil, e.attempts, e.result))
      && (c.ResolveReconcile? && c.applied ==> r == Effect(Confirmed, "", e.leaseUntil, e.attempts, Some(c.result)))
      && (c.ResolveReconcile? && !c.applied ==> r == Effect(Prepared, "", e.leaseUntil, e.attempts, e.result))
      && (c.Prepare? ==>
            r == if e.NoEffect? then Effect(Prepared, "", 0.0, 0, None)
                 else if e.status == InFlight then Effect(Unknown, e.owner, e.leaseUntil, e.attempts, e.result)
                 else if e.status == Failed then Effect(Prepared, e.owner, e.leaseUntil, e.attempts, e.result)
                 else e)
  {
  }

  // ----- The lease over traces -----

  lemma {:induction false} HeldWhilePreparing(e: Effect, trace: seq<Timed>, i: nat, j: nat)
    requires i < j <= |trace| && trace[i].call.MarkInFlight? && Succeeds(At(e, trace, i), trace[i])
    requires forall k :: i < k < j ==> trace[k].call.Prepare? && trace[k].now < trace[i].now + trace[i].call.leaseSeconds
    ensures
      var grant := trace[i].call;
      var r := At(e, trace, j);
      && r.Effect? && r.status == InFlight && r.owner == grant.owner && r.leaseUntil == trace[i].now + grant.leaseSeconds
      && r == At(e, trace, i + 1)
  {
    if i + 1 < j {
      HeldWhilePreparing(e, trace, i, j - 1);
      AcceptedIff(At(e, trace, j - 1), trace[j - 1].call, trace[j - 1].now);
    }
  }

  /**
  While a grant is out and only prepared for since, every prepare before its lease lapses is told it is busy and
  changes nothing, and the first one after that makes the outcome unknown, to be reconciled.
  */
  lemma LeaseHoldsThenUnknown(e: Effect, trace: seq<Timed>, i: nat, j: nat)
    requires i < j < |trace| && trace[i].call.MarkInFlight? && Succeeds(At(e, trace, i), trace[i])
    requires forall k :: i < k < j ==> trace[k].call.Prepare? && trace[k].now < trace[i].now + trace[i].call.leaseSeconds
    requires trace[j].call.Prepare?
    ensures
      var lapse := trace[i].now + trace[i].call.leaseSeconds;
      var held, r := At(e, trace, i + 1), At(e, trace, j + 1);
      if trace[j].now < lapse then
        Change(At(e, trace, j), trace[j].call, trace[j].now) == Err(EffectBusy) && r == held
      else
        Succeeds(At(e, trace, j), trace[j]) && r.Effect? && r.status == Unknown && r.attempts == held.attempts
  {
    HeldWhilePreparing(e, trace, i, j);
  }

  // ----- Every grant is counted -----

  function Grants(e: Effect, trace: seq<Timed>, n: nat): nat
    requires n <= |trace|
  {
    if n == 0 then 0
    else
      var c := trace[n - 1];
      Grants(e, trace, n - 1) + (if c.call.MarkInFlight? && Succeeds(At(e, trace, n - 1), c) then 1 else 0)
  }

  function Attempts(e: Effect): nat {
    if e.Effect? then e.attempts else 0
  }

  /** The record counts its grants, through every failure, retry and reconciliation. */
  lemma {:induction false} AttemptsCountGrants(e: Effect, trace: seq<Timed>, n: nat)
    requires n <= |trace|
    ensures Attempts(At(e, trace, n)) == Attempts(e) + Grants(e, trace, n)
  {
    if n > 0 { AttemptsCountGrants(e, trace, n - 1); }
  }
}
