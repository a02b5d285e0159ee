/**
The ledger against an external world: executors apply the effect under a grant, their replies can be lost, owners can
crash, and what is recorded about the outcome is true at the moment it is recorded.
*/
module EffectWorld {
  import opened Prelude
  import opened EffectLedger

  /**
  `covered` counts applications made under the current grant, `late` those made after the grant had lapsed, and `used`
  the grants that already applied. Only the counts of the world matter, not what the executors remember.
  */
  datatype World = World(effect: Effect, used: set<nat>, covered: nat, late: nat)

  datatype Action = Call(call: Call, now: real) | ApplyUnderGrant | ApplyLate

  function Applied(w: World): nat {
    w.covered + w.late
  }

  /** What is reported matches the world when it is recorded. */
  predicate Truthful(w: World, c: Call) {
    match c
    case Confirm(_) => Applied(w) > 0
    case Fail(_) => Applied(w) == 0
    case ResolveReconcile(applied, _) => applied == (Applied(w) > 0)
    case _ => true
  }

  predicate HoldsGrant(w: World) {
    w.effect.Effect? && w.effect.status == InFlight && w.effect.attempts !in w.used
  }

  predicate Enabled(w: World, a: Action) {
    match a
    case Call(c, _) => Truthful(w, c)
    case ApplyUnderGrant => HoldsGrant(w)
    case ApplyLate => true
  }

  function Step(w: World, a: Action): World
    requires a.ApplyUnderGrant? ==> HoldsGrant(w)
  {
    match a
    case Call(c, now) => w.(effect := After(w.effect, Timed(c, now)))
    case ApplyUnderGrant => w.(covered := w.covered + 1, used := w.used + {w.effect.attempts})
    case ApplyLate => w.(late := w.late + 1)
  }

  ghost predicate Reaches(w: World, run: seq<Action>, v: World)
    decreases run
  {
    if run == [] then w == v else Enabled(w, run[0]) && Reaches(Step(w, run[0]), run[1..], v)
  }

  const START := World(NoEffect, {}, 0, 0)

  ghost predicate Inv(w: World) {
    && w.covered <= 1
    && (w.effect.NoEffect? ==> w.covered == 0 && w.used == {})
    && (w.effect.Effect? ==>
          && (forall g :: g in w.used ==> g <= w.effect.attempts)
          && (w.effect.status == Prepared || w.effect.status == Failed || HoldsGrant(w) ==> w.covered == 0)
          && (w.effect.status == Confirmed ==> Applied(w) > 0))
  }

  lemma StepKeepsInv(w: World, a: Action)
    requires Inv(w) && Enabled(w, a)
    ensures Inv(Step(w, a))
  {
  }

  lemma {:induction false} RunKeepsInv(w: World, run: seq<Action>, v: World)
    requires Inv(w) && Reaches(w, run, v)
    ensures Inv(v)
    decreases run
  {
    if run != [] {
      StepKeepsInv(w, run[0]);
      RunKeepsInv(Step(w, run[0]), run[1..], v);
    }
  }

  lemma {:induction false} NoLateApplication(w: World, run: seq<Action>, v: World)
    requires Reaches(w, run, v) && forall i :: 0 <= i < |run| ==> !run[i].ApplyLate?
    ensures v.late == w.late
    decreases run
  {
    if run != [] {
      assert !run[0].ApplyLate?;
      NoLateApplication(Step(w, run[0]), run[1..], v);
    }
  }

  /**
  However many grants, lost replies and crashes: at most one application under a grant, so at most one more than the
  late ones.
  */
  lemma AppliedAtMostOncePlusLate(run: seq<Action>, v: World)
    requires Reaches(START, run, v)
    ensures Applied(v) <= 1 + v.late
  {
    RunKeepsInv(START, run, v);
  }

  /**
  If nothing is applied after its grant lapsed: at most once, exactly once when confirmed, not at all when prepared or
  failed.
  */
  lemma AppliedAsRecorded(run: seq<Action>, v: World)
    requires Reaches(START, run, v) && forall i :: 0 <= i < |run| ==> !run[i].ApplyLate?
    ensures Applied(v) <= 1
    ensures v.effect.Effect? && v.effect.status == Confirmed ==> Applied(v) == 1
    ensures v.effect.NoEffect? || v.effect.status == Prepared || v.effect.status == Failed ==> Applied(v) == 0
  {
    RunKeepsInv(START, run, v);
    NoLateApplication(START, run, v);
  }

  // ----- Why both assumptions are needed -----

  /**
  One late application is enough for two: the reconciliation was true when recorded, and the old request landed after
  it.
  */
  lemma LateApplicationDuplicates(w: World, owner: string, now: real) returns (run: seq<Action>, v: World)
    requires Inv(w) && w.effect.Effect? && w.effect.status == Reconciling && Applied(w) == 0
    ensures Reaches(w, run, v) && Applied(v) == 2
  {
    var a, b := Call(ResolveReconcile(false, ""), now), Call(MarkInFlight(owner, 120.0), now);
    var w1 := Step(w, a);
    var w2 := Step(w1, b);
    var w3 := Step(w2, ApplyLate);
    v := Step(w3, ApplyUnderGrant);
    run := [a, b, ApplyLate, ApplyUnderGrant];
    assert Reaches(v, [], v);
    assert Reaches(w3, run[3..], v) by { assert run[3..][1..] == []; }
    assert Reaches(w2, run[2..], v) by { assert run[2..][1..] == run[3..]; }
    assert Reaches(w1, run[1..], v) by { assert run[1..][1..] == run[2..]; }
  }

  /**
  A reconciler that looked before the effect was applied and answers after it: the ledger does not check who began the
  reconciliation, takes the outdated answer, and a second application under a grant follows.
  */
  lemma OutdatedAnswerDuplicates(w: World, owner: string, now: real)
    requires Inv(w) && w.effect.Effect? && w.effect.status == Reconciling && w.covered == 1
    ensures
      var w1 := Step(w, Call(ResolveReconcile(false, ""), now));
      var w2 := Step(w1, Call(MarkInFlight(owner, 120.0), now));
      !Truthful(w, ResolveReconcile(false, "")) && HoldsGrant(w2) && Step(w2, ApplyUnderGrant).covered == 2
  {
  }
}
