/**
 Live view, scrub and replay fold prefixes of one stream (packages/tui/src/rail-reducer.ts:12-17).
 What an earlier frame shows of a phase is never taken back by a later one, narration apart.
 */
module RailScrub {
  import opened Wrappers
  import opened RailTypes
  import opened RailFold

  /** The non-narration lines, in order. */
  function Actions(lines: seq<RailLine>): seq<RailLine> {
    if lines == [] then []
    else Actions(lines[..|lines| - 1]) + (if IsAction(lines[|lines| - 1]) then [lines[|lines| - 1]] else [])
  }

  /** The non-narration lines without the status the last pass gives them. */
  function BareActions(lines: seq<RailLine>): seq<RailLine> {
    if lines == [] then []
    else BareActions(lines[..|lines| - 1])
         + (if IsAction(lines[|lines| - 1]) then [lines[|lines| - 1].(status := None)] else [])
  }

  ghost predicate Extends(p: Phase, q: Phase) {
    p.id == q.id && p.name == q.name && Actions(p.events) <= Actions(q.events)
  }

  /** Every phase of `ps` is still there in `qs`, at its position. */
  ghost predicate Extended(ps: seq<Phase>, qs: seq<Phase>) {
    |ps| <= |qs| && forall i :: 0 <= i < |ps| ==> Extends(ps[i], qs[i])
  }

  lemma ActionsAfterPush(lines: seq<RailLine>, line: RailLine)
    ensures Actions(lines) <= Actions(lines + [line])
  {
    assert (lines + [line])[..|lines|] == lines;
  }

  lemma ActionsAfterDrop(lines: seq<RailLine>)
    ensures Actions(lines) <= Actions(WithoutTrailingNarration(lines))
  {
  }

  lemma PushExtends(r: Rail, at: Option<nat>, line: RailLine)
    requires InRange(at, r.phases)
    ensures Extended(r.phases, PushAt(r, at, line).phases)
  {
    if at.Some? {
      ActionsAfterPush(r.phases[at.value].events, Stamped(line, r.run.lastTs));
    }
  }

  lemma Transitive(ps: seq<Phase>, qs: seq<Phase>, rs: seq<Phase>)
    requires Extended(ps, qs) && Extended(qs, rs)
    ensures Extended(ps, rs)
  {
    forall i | 0 <= i < |ps|
      ensures Extends(ps[i], rs[i])
    {
      assert Extends(ps[i], qs[i]) && Extends(qs[i], rs[i]);
    }
  }

  lemma ResolveExtends(r: Rail, at: Option<nat>, e: Event)
    requires InRange(at, r.phases) && e.body.ApprovalResolved?
    ensures Extended(r.phases, ResolveApproval(r, at, e).phases)
  {
    if at.Some? {
      var line := DecisionLine(OrElse(e.body.message, e.body.question), e.body.decision, e.body.approved);
      ActionsAfterPush(r.phases[at.value].events, Stamped(line, r.run.lastTs));
    }
  }

  lemma FailExtends(r: Rail, at: Option<nat>, message: string)
    requires InRange(at, r.phases)
    ensures Extended(r.phases, Fail(r, at, message).phases)
  {
    if at.Some? {
      ActionsAfterPush(r.phases[at.value].events, Stamped(Line(OrElse(message, "error"), Warn, None), r.run.lastTs));
    }
  }

  lemma CallExtends(r: Rail, at: Option<nat>, e: Event)
    requires InRange(at, r.phases) && e.body.ModelCall?
    ensures Extended(r.phases, CallModel(r, at, e).phases)
  {
    var costed := if e.body.costCents.Some? then AddCost(r, at, e.body.costCents.value) else r;
    var counted := CountTokens(costed, e.body.inputTokens, e.body.outputTokens);
    assert Extended(r.phases, counted.phases);
    PushExtends(counted, at, Line(e.body.said, Accent, Some(Narration)));
    Transitive(r.phases, counted.phases, PushAt(counted, at, Line(e.body.said, Accent, Some(Narration))).phases);
  }

  lemma StartExtends(r: Rail, e: Event)
    requires e.body.PhaseStarted?
    ensures Extended(r.phases, StartPhase(r, e).phases)
  {
  }

  lemma CompleteExtends(r: Rail, at: Option<nat>, detail: string)
    requires InRange(at, r.phases)
    ensures Extended(r.phases, CompletePhase(r, at, detail).phases)
  {
  }

  lemma RequestExtends(r: Rail, at: Option<nat>, question: string)
    requires InRange(at, r.phases)
    ensures Extended(r.phases, RequestApproval(r, at, question).phases)
  {
  }

  lemma CompleteRunExtends(r: Rail)
    ensures Extended(r.phases, CompleteRun(r).phases)
  {
  }

  lemma DropExtends(r: Rail, at: Option<nat>)
    requires InRange(at, r.phases)
    ensures Extended(r.phases, DropNarration(r, at).phases)
  {
    if at.Some? {
      ActionsAfterDrop(r.phases[at.value].events);
    }
  }

  lemma PhaseEffectExtends(r: Rail, at: Option<nat>, e: Event)
    requires InRange(at, r.phases) && IsPhaseEvent(e.body)
    ensures Extended(r.phases, PhaseEffect(r, at, e).phases)
  {
    match e.body
    case PhaseStarted(_, _, _) => StartExtends(r, e);
    case PhaseCompleted(detail) => CompleteExtends(r, at, detail);
    case ApprovalRequested(message, question) =>
      RequestExtends(r, at, OrElse(message, OrElse(question, "Approve?")));
    case ApprovalResolved(_, _, _, _) => ResolveExtends(r, at, e);
    case ErrorRaised(message) => FailExtends(r, at, message);
    case RunCompleted => CompleteRunExtends(r);
  }

  lemma LineEffectExtends(r: Rail, at: Option<nat>, e: Event)
    requires InRange(at, r.phases) && IsLineEvent(e.body)
    ensures Extended(r.phases, LineEffect(r, at, e).phases)
  {
    match e.body
    case VerificationVerdict(blocked, summary) => PushExtends(Blame(r, blocked), at, VerdictLine(blocked, summary));
    case ClaimVerdict(status, statement) =>
      PushExtends(Blame(r, status == "refuted"), at, ClaimLine(status, statement));
    case ModelCall(_, _, _, _) => CallExtends(r, at, e);
    case AssistantMessage => DropExtends(r, at);
    case Other(line) =>
      if line.Some? {
        PushExtends(r, at, line.value);
      }
  }

  /** No event takes back a phase or an action line. */
  lemma DispatchExtends(r: Rail, at: Option<nat>, e: Event)
    requires InRange(at, r.phases)
    ensures Extended(r.phases, Dispatch(r, at, e).phases)
  {
    if IsPhaseEvent(e.body) {
      PhaseEffectExtends(r, at, e);
    } else if IsLineEvent(e.body) {
      LineEffectExtends(r, at, e);
    }
  }

  lemma StepExtends(r: Rail, e: Event)
    ensures Extended(r.phases, Step(r, e).phases)
  {
    DispatchExtends(Clock(r, e.ts), PhaseFor(r.phases, e.phaseId), e);
  }

  /** Folding a stream in two parts is folding it whole. */
  lemma {:induction false} FoldInParts(r: Rail, a: seq<Event>, b: seq<Event>)
    ensures FoldFrom(FoldFrom(r, a), b) == FoldFrom(r, a + b)
  {
    if b == [] {
      assert a + b == a;
    } else {
      var n := |b| - 1;
      assert (a + b)[..|a + b| - 1] == a + b[..n];
      FoldInParts(r, a, b[..n]);
    }
  }

  lemma {:induction false} FoldExtends(r: Rail, b: seq<Event>)
    ensures Extended(r.phases, FoldFrom(r, b).phases)
  {
    if b != [] {
      var before := FoldFrom(r, b[..|b| - 1]);
      FoldExtends(r, b[..|b| - 1]);
      StepExtends(before, b[|b| - 1]);
      Transitive(r.phases, before.phases, FoldFrom(r, b).phases);
    }
  }

  // --- the same for the read-out ---

  lemma {:induction false} BareIsMapped(lines: seq<RailLine>, marked: seq<RailLine>)
    requires |lines| == |marked|
    requires forall i :: 0 <= i < |lines| ==> lines[i].(status := None) == marked[i].(status := None)
    ensures BareActions(marked) == BareActions(lines)
  {
    if lines != [] {
      var n := |lines| - 1;
      BareIsMapped(lines[..n], marked[..n]);
      assert lines[n].(status := None) == marked[n].(status := None);
      assert IsAction(lines[n]) == (lines[n].(status := None).kind != Some(Narration));
      assert IsAction(marked[n]) == (marked[n].(status := None).kind != Some(Narration));
    }
  }

  lemma MarkedKeepsBare(lines: seq<RailLine>, live: bool)
    ensures BareActions(Marked(lines, live)) == BareActions(lines)
  {
    var m := Marked(lines, live);
    forall i | 0 <= i < |lines|
      ensures lines[i].(status := None) == m[i].(status := None)
    {
    }
    BareIsMapped(lines, m);
  }

  function Bare(lines: seq<RailLine>): seq<RailLine> {
    seq(|lines|, i requires 0 <= i < |lines| => lines[i].(status := None))
  }

  lemma {:induction false} BareOfActions(lines: seq<RailLine>)
    ensures BareActions(lines) == Bare(Actions(lines))
  {
    if lines != [] {
      BareOfActions(lines[..|lines| - 1]);
    }
  }

  /**
   Scrubbing is stable: whatever follows a stream, each phase its model shows keeps its position, id
   and name, and its action lines are extended at their end only. The view options are free, so
   the two frames may be a live one and a replayed one.
   */
  lemma ScrubStable(a: seq<Event>, b: seq<Event>, o: Options, o': Options)
    ensures var earlier, later := Reduced(a, o).phases, Reduced(a + b, o').phases;
            && |earlier| <= |later|
            && forall i :: 0 <= i < |earlier| ==>
                 && earlier[i].id == later[i].id
                 && earlier[i].name == later[i].name
                 && BareActions(earlier[i].events) <= BareActions(later[i].events)
  {
    var r, s := Fold(a), Fold(a + b);
    FoldInParts(EMPTY, a, b);
    FoldExtends(r, b);
    var earlier, later := Reduced(a, o).phases, Reduced(a + b, o').phases;
    forall i | 0 <= i < |earlier|
      ensures earlier[i].id == later[i].id && earlier[i].name == later[i].name
      ensures BareActions(earlier[i].events) <= BareActions(later[i].events)
    {
      assert Extends(r.phases[i], s.phases[i]);
      MarkedKeepsBare(r.phases[i].events, r.phases[i].state == Running && !r.run.done);
      MarkedKeepsBare(s.phases[i].events, s.phases[i].state == Running && !s.run.done);
      BareOfActions(r.phases[i].events);
      BareOfActions(s.phases[i].events);
    }
  }
}
