/**
 Cost in the rail (packages/tui/src/rail-reducer.ts:363-369): every cent of a run is on exactly one
 phase, except what was spent before any phase opened.
 */
module RailCost {
  import opened Wrappers
  import opened RailTypes
  import opened RailFold

  function CostOf(e: Event): real {
    if e.body.ModelCall? then e.body.costCents.GetOr(0.0) else 0.0
  }

  /** The cost of all model calls of a stream. */
  function TotalCost(events: seq<Event>): real {
    if events == [] then 0.0 else TotalCost(events[..|events| - 1]) + CostOf(events[|events| - 1])
  }

  ghost predicate OpensPhase(events: seq<Event>) {
    exists i :: 0 <= i < |events| && events[i].body.PhaseStarted?
  }

  /** The cost of the model calls no phase start precedes. */
  ghost function UnphasedCost(events: seq<Event>): real {
    if events == [] then 0.0
    else
      var n := |events| - 1;
      UnphasedCost(events[..n]) + if OpensPhase(events[..n]) then 0.0 else CostOf(events[n])
  }

  function SumCosts(phases: seq<Phase>): real {
    if phases == [] then 0.0
    else SumCosts(phases[..|phases| - 1]) + phases[|phases| - 1].costCents.GetOr(0.0)
  }

  ghost predicate SameCosts(ps: seq<Phase>, qs: seq<Phase>) {
    |ps| == |qs| && forall i :: 0 <= i < |ps| ==> ps[i].costCents == qs[i].costCents
  }

  lemma {:induction false} SameSums(ps: seq<Phase>, qs: seq<Phase>)
    requires SameCosts(ps, qs)
    ensures SumCosts(ps) == SumCosts(qs)
  {
    if ps != [] {
      SameSums(ps[..|ps| - 1], qs[..|qs| - 1]);
    }
  }

  lemma {:induction false} SumAfterUpdate(ps: seq<Phase>, k: nat, q: Phase)
    requires k < |ps|
    ensures SumCosts(ps[k := q]) == SumCosts(ps) - ps[k].costCents.GetOr(0.0) + q.costCents.GetOr(0.0)
  {
    var n := |ps| - 1;
    if k == n {
      assert ps[k := q][..n] == ps[..n];
    } else {
      SumAfterUpdate(ps[..n], k, q);
      assert ps[k := q][..n] == ps[..n][k := q];
    }
  }

  /** Nothing but a model call moves money, and a call moves it to one phase. */
  ghost predicate Spends(r: Rail, s: Rail, cents: real) {
    && s.run.costCents == r.run.costCents + cents
    && SumCosts(s.phases) == SumCosts(r.phases) + (if r.phases == [] then 0.0 else cents)
  }

  lemma StartSpendsNothing(r: Rail, e: Event)
    requires e.body.PhaseStarted?
    ensures Spends(r, StartPhase(r, e), 0.0)
  {
    var s := StartPhase(r, e);
    SameSums(r.phases, RollOver(r).phases);
    assert s.phases[..|r.phases|] == RollOver(r).phases;
  }

  lemma PhaseEffectSpendsNothing(r: Rail, at: Option<nat>, e: Event)
    requires InRange(at, r.phases) && IsPhaseEvent(e.body)
    ensures Spends(r, PhaseEffect(r, at, e), 0.0)
  {
    if e.body.PhaseStarted? {
      StartSpendsNothing(r, e);
    } else {
      SameSums(r.phases, PhaseEffect(r, at, e).phases);
    }
  }

  lemma AddCostSpends(r: Rail, at: Option<nat>, cents: real)
    requires InRange(at, r.phases) && (at.Some? <==> r.phases != [])
    ensures Spends(r, AddCost(r, at, cents), cents)
  {
    if at.Some? {
      var p := r.phases[at.value];
      SumAfterUpdate(r.phases, at.value, p.(costCents := Some(p.costCents.GetOr(0.0) + cents)));
    }
  }

  lemma CallSpends(r: Rail, at: Option<nat>, e: Event)
    requires InRange(at, r.phases) && (at.Some? <==> r.phases != []) && e.body.ModelCall?
    ensures Spends(r, CallModel(r, at, e), CostOf(e))
  {
    var costed := if e.body.costCents.Some? then AddCost(r, at, e.body.costCents.value) else r;
    AddCostSpends(r, at, CostOf(e));
    SameSums(costed.phases, CallModel(r, at, e).phases);
  }

  lemma LineEffectSpends(r: Rail, at: Option<nat>, e: Event)
    requires InRange(at, r.phases) && (at.Some? <==> r.phases != []) && IsLineEvent(e.body)
    ensures Spends(r, LineEffect(r, at, e), CostOf(e))
  {
    if e.body.ModelCall? {
      CallSpends(r, at, e);
    } else {
      SameSums(r.phases, LineEffect(r, at, e).phases);
    }
  }

  lemma StepSpends(r: Rail, e: Event)
    ensures Spends(r, Step(r, e), CostOf(e))
    ensures Step(r, e).phases == [] <==> r.phases == [] && !e.body.PhaseStarted?
  {
    var c, at := Clock(r, e.ts), PhaseFor(r.phases, e.phaseId);
    if IsPhaseEvent(e.body) {
      PhaseEffectSpendsNothing(c, at, e);
    } else if IsLineEvent(e.body) {
      LineEffectSpends(c, at, e);
    }
  }

  lemma {:induction false} FoldCosts(events: seq<Event>)
    ensures Fold(events).run.costCents == TotalCost(events)
    ensures Fold(events).phases == [] <==> !OpensPhase(events)
    ensures TotalCost(events) == SumCosts(Fold(events).phases) + UnphasedCost(events)
  {
    if events != [] {
      var n := |events| - 1;
      FoldCosts(events[..n]);
      StepSpends(Fold(events[..n]), events[n]);
      OpensPhaseByNow(events);
    }
  }

  lemma OpensPhaseByNow(events: seq<Event>)
    requires events != []
    ensures OpensPhase(events) <==> OpensPhase(events[..|events| - 1]) || events[|events| - 1].body.PhaseStarted?
  {
    var before := events[..|events| - 1];
    assert forall i :: 0 <= i < |before| ==> before[i] == events[i];
    if OpensPhase(before) {
      var i :| 0 <= i < |before| && before[i].body.PhaseStarted?;
      assert events[i].body.PhaseStarted?;
    }
  }

  /** The total shown is the cost of every model call, and is split between the phases without loss. */
  lemma CostConserved(events: seq<Event>, o: Options)
    ensures var m := Reduced(events, o);
            && m.status.costCents == TotalCost(events)
            && m.status.costCents == SumCosts(m.phases) + UnphasedCost(events)
  {
    FoldCosts(events);
    SameSums(Fold(events).phases, Reduced(events, o).phases);
  }
}
