/**
 Phase states in the rail (packages/tui/src/rail-reducer.ts:242-326, 405-419): at most one action in
 the whole model is shown as running, and a completed run leaves nothing open.
 */
module RailStates {
  import opened Wrappers
  import opened RailTypes
  import opened RailFold

  predicate IsOver(p: Phase) {
    p.state == Completed || p.state == Failed
  }

  ghost predicate OverButLast(phases: seq<Phase>) {
    forall i :: 0 <= i < |phases| - 1 ==> IsOver(phases[i])
  }

  /** Events whose branch sets the state of the phase they are attributed to. */
  predicate SetsState(b: Body) {
    b.PhaseCompleted? || b.ApprovalRequested? || b.ApprovalResolved? || b.ErrorRaised?
  }

  /** In state `r` the event does not reach back to an earlier phase, nor open one during a wait. */
  predicate IsOrderly(r: Rail, e: Event) {
    && (SetsState(e.body) ==> PhaseFor(r.phases, e.phaseId) == Current(r.phases))
    && (e.body.PhaseStarted? && r.phases != [] ==> r.phases[|r.phases| - 1].state != Waiting)
  }

  ghost predicate Orderly(events: seq<Event>) {
    forall k :: 0 <= k < |events| ==> IsOrderly(Fold(events[..k]), events[k])
  }

  ghost predicate SameStates(ps: seq<Phase>, qs: seq<Phase>) {
    |ps| == |qs| && forall i :: 0 <= i < |ps| ==> ps[i].state == qs[i].state
  }

  lemma LineEffectKeepsStates(r: Rail, at: Option<nat>, e: Event)
    requires InRange(at, r.phases) && IsLineEvent(e.body)
    ensures SameStates(r.phases, LineEffect(r, at, e).phases)
  {
  }

  lemma StartKeepsOver(r: Rail, e: Event)
    requires OverButLast(r.phases) && e.body.PhaseStarted?
    requires forall i :: 0 <= i < |r.phases| ==> r.phases[i].state != Pending
    requires r.phases != [] ==> r.phases[|r.phases| - 1].state != Waiting
    ensures OverButLast(StartPhase(r, e).phases)
  {
  }

  lemma PhaseEffectNotPending(r: Rail, at: Option<nat>, e: Event)
    requires InRange(at, r.phases) && IsPhaseEvent(e.body)
    requires forall i :: 0 <= i < |r.phases| ==> r.phases[i].state != Pending
    ensures forall i :: 0 <= i < |PhaseEffect(r, at, e).phases| ==> PhaseEffect(r, at, e).phases[i].state != Pending
  {
  }

  lemma NoPending(r: Rail, e: Event)
    requires forall i :: 0 <= i < |r.phases| ==> r.phases[i].state != Pending
    ensures forall i :: 0 <= i < |Step(r, e).phases| ==> Step(r, e).phases[i].state != Pending
  {
    var c, at := Clock(r, e.ts), PhaseFor(r.phases, e.phaseId);
    if IsLineEvent(e.body) {
      LineEffectKeepsStates(c, at, e);
    } else if IsPhaseEvent(e.body) {
      PhaseEffectNotPending(c, at, e);
    }
  }

  lemma PhaseEffectKeepsOver(r: Rail, at: Option<nat>, e: Event)
    requires OverButLast(r.phases) && IsPhaseEvent(e.body) && !e.body.PhaseStarted?
    requires InRange(at, r.phases) && (SetsState(e.body) ==> at == Current(r.phases))
    ensures OverButLast(PhaseEffect(r, at, e).phases)
  {
  }

  lemma StepKeepsOver(r: Rail, e: Event)
    requires OverButLast(r.phases) && IsOrderly(r, e)
    requires forall i :: 0 <= i < |r.phases| ==> r.phases[i].state != Pending
    ensures OverButLast(Step(r, e).phases)
  {
    var c, at := Clock(r, e.ts), PhaseFor(r.phases, e.phaseId);
    if e.body.PhaseStarted? {
      StartKeepsOver(c, e);
    } else if IsPhaseEvent(e.body) {
      PhaseEffectKeepsOver(c, at, e);
    } else if IsLineEvent(e.body) {
      LineEffectKeepsStates(c, at, e);
    }
  }

  lemma {:induction false} FoldIsOver(events: seq<Event>)
    requires Orderly(events)
    ensures OverButLast(Fold(events).phases)
    ensures forall i :: 0 <= i < |Fold(events).phases| ==> Fold(events).phases[i].state != Pending
  {
    if events != [] {
      var n := |events| - 1;
      forall k | 0 <= k < n
        ensures IsOrderly(Fold(events[..n][..k]), events[..n][k])
      {
        assert events[..n][..k] == events[..k];
      }
      FoldIsOver(events[..n]);
      StepKeepsOver(Fold(events[..n]), events[n]);
      NoPending(Fold(events[..n]), events[n]);
    }
  }

  /** Action line `k` of phase `i` is shown as running. */
  predicate ShownRunning(m: RailModel, i: nat, k: nat) {
    && i < |m.phases| && k < |m.phases[i].events|
    && IsAction(m.phases[i].events[k]) && m.phases[i].events[k].status == Some(LineRunning)
  }

  /** A line runs exactly when it is the last action of a running phase of a run that is not done. */
  lemma RunningLine(events: seq<Event>, o: Options, i: nat, k: nat)
    ensures var r := Fold(events);
            ShownRunning(Reduced(events, o), i, k)
            <==> i < |r.phases| && k == LastAction(r.phases[i].events) && r.phases[i].state == Running && !r.run.done
  {
  }

  /** In an orderly stream every phase but the last is over, and at most one line in the model runs. */
  lemma AtMostOneRunning(events: seq<Event>, o: Options)
    requires Orderly(events)
    ensures OverButLast(Reduced(events, o).phases)
    ensures forall i: nat, k: nat, j: nat, l: nat ::
              ShownRunning(Reduced(events, o), i, k) && ShownRunning(Reduced(events, o), j, l)
              ==> i == j == |Reduced(events, o).phases| - 1 && k == l
  {
    FoldIsOver(events);
    forall i: nat, k: nat | ShownRunning(Reduced(events, o), i, k)
      ensures i == |Fold(events).phases| - 1 && k == LastAction(Fold(events).phases[i].events)
    {
      RunningLine(events, o, i, k);
    }
  }

  /** Right after a run completes no phase is open, no approval is pending and no line runs. */
  lemma CompletedRunIsClosed(events: seq<Event>, e: Event, o: Options)
    requires e.body.RunCompleted?
    ensures var m := Reduced(events + [e], o);
            && m.done
            && m.approval.None?
            && (forall i :: 0 <= i < |m.phases| ==> m.phases[i].state != Running && m.phases[i].state != Waiting)
            && (forall i: nat, k: nat :: !ShownRunning(m, i, k))
  {
    assert (events + [e])[..|events|] == events;
    var r, m := Fold(events + [e]), Reduced(events + [e], o);
    assert r == CompleteRun(Clock(Fold(events), e.ts));
    forall i: nat, k: nat
      ensures !ShownRunning(m, i, k)
    {
      RunningLine(events + [e], o, i, k);
    }
  }
}
