/**
 What the rail shows of each phase (packages/tui/src/rail-reducer.ts:242-399), read off the events: a phase is its own
 small machine that is moved by the events attributed to it, by the next phase's start and by the end of the run.
 */
module RailPhases {
  import opened Wrappers
  import opened Seqs
  import opened Text
  import opened RailTypes
  import opened RailFold
  import opened RailMeaning

  // --- which phases there are, and which one an event concerns ---

  /** The id a start gives its phase, when `n` phases were started before. */
  function StartId(e: Event, n: nat): string
    requires e.body.PhaseStarted?
  {
    if e.phaseId.Some? then e.phaseId.value else FirstText([e.body.payloadId, "phase-" + Decimal(n)])
  }

  /** One id for each phase start, in order. */
  function PhaseIds(events: seq<Event>): seq<string> {
    if events == [] then []
    else
      var front, e := PhaseIds(events[..|events| - 1]), events[|events| - 1];
      if e.body.PhaseStarted? then front + [StartId(e, |front|)] else front
  }

  /** The phase is the last one with the id the event names, or the last of all if none has it. */
  predicate Concerns(ids: seq<string>, e: Event, i: nat)
    requires i < |ids|
  {
    if e.phaseId.Some? && e.phaseId.value in ids
    then ids[i] == e.phaseId.value && e.phaseId.value !in ids[i + 1..]
    else i == |ids| - 1
  }

  /** The timestamp of the last start under an id that had one. */
  function StartOf(events: seq<Event>, id: string): Option<int> {
    if events == [] then None
    else
      var front, e := events[..|events| - 1], events[|events| - 1];
      if e.body.PhaseStarted? && e.ts.Some? && StartId(e, |PhaseIds(front)|) == id then e.ts
      else StartOf(front, id)
  }

  /** The last timestamp read. */
  function Now(events: seq<Event>): Option<int> {
    match LastOf(events, HasTime)
    case Some(e) => e.ts
    case None => None
  }

  // --- one phase ---

  predicate IsOpen(s: PhaseState) {
    s == Running || s == Waiting
  }

  /** `own`: the event concerns the phase; `last`: no phase was started after it. */
  function StateAfter(was: PhaseState, e: Event, own: bool, last: bool): PhaseState {
    if e.body.PhaseStarted? && last && was == Running then Completed
    else if e.body.RunCompleted? && IsOpen(was) then Completed
    else if !own then was
    else if e.body.PhaseCompleted? then Completed
    else if e.body.ErrorRaised? then Failed
    else if e.body.ApprovalRequested? then Waiting
    else if e.body.ApprovalResolved? && was == Waiting then Running
    else was
  }

  /** The events that stop the clock of a phase. */
  predicate StopsClock(was: PhaseState, e: Event, own: bool, last: bool) {
    || (e.body.PhaseStarted? && last)
    || (e.body.RunCompleted? && IsOpen(was))
    || ((e.body.PhaseCompleted? || e.body.ErrorRaised?) && own)
  }

  /** Stopped once, and never below nothing. */
  function DurationAfter(was: Option<int>, stops: bool, start: Option<int>, now: Option<int>): Option<int> {
    if was.Some? || !stops || start.None? || now.None? then was
    else Some(if now.value > start.value then now.value - start.value else 0)
  }

  function DetailAfter(was: Option<string>, e: Event, own: bool): Option<string> {
    if own && e.body.PhaseCompleted? && e.body.detail != "" then Some(e.body.detail) else was
  }

  function CostAfter(was: Option<real>, e: Event, own: bool): Option<real> {
    if own && e.body.ModelCall? && e.body.costCents.Some?
    then Some((if was.Some? then was.value else 0.0) + e.body.costCents.value)
    else was
  }

  /** The line an event adds to the phase it concerns. */
  function LineOfEvent(e: Event): Option<RailLine> {
    match e.body
    case ApprovalResolved(approved, message, question, decision) =>
      if message == "" && question == "" then None
      else
        Some(Plain(FirstText([message, question]) + " \U{2192} "
                   + FirstText([decision, if approved then "approved" else "declined"]),
                   if approved then Success else Warn, Some(Approval)))
    case ErrorRaised(message) => Some(Plain(FirstText([message, "error"]), Warn, None))
    case VerificationVerdict(blocked, summary) =>
      Some(Plain(FirstText([summary, if blocked then "verification blocked" else "verification passed"]),
                 if blocked then Warn else Success, Some(Verification)))
    case ClaimVerdict(status, statement) =>
      Some(Plain(FirstText([statement, "claim"]) + " \U{2014} " + FirstText([status, "unverified"]),
                 if status == "refuted" then Warn else if status == "verified" then Success else Muted, Some(Claim)))
    case ModelCall(_, _, _, said) => if said == "" then None else Some(Plain(said, Accent, Some(Narration)))
    case Other(line) => line
    case _ => None
  }

  function Plain(text: string, tone: Tone, kind: Option<LineKind>): RailLine {
    RailLine(text, None, Some(tone), kind, None, None, None)
  }

  /** A line without a time of its own gets that of the event. */
  function Timed(line: RailLine, now: Option<int>): RailLine {
    if line.startedAtMs.Some? then line else line.(startedAtMs := now)
  }

  /** Lines are added at the end; the final message takes back a narration that stands there. */
  function LinesAfter(was: seq<RailLine>, e: Event, own: bool, now: Option<int>): seq<RailLine> {
    if !own then was
    else if e.body.AssistantMessage? && was != [] && was[|was| - 1].kind == Some(Narration) then was[..|was| - 1]
    else
      match LineOfEvent(e)
      case Some(line) => was + [Timed(line, now)]
      case None => was
  }

  function PhaseAfter(p: Phase, e: Event, own: bool, last: bool, start: Option<int>, now: Option<int>): Phase {
    Phase(p.id, p.name, StateAfter(p.state, e, own, last), DetailAfter(p.detail, e, own),
          LinesAfter(p.events, e, own, now),
          DurationAfter(p.durationMs, StopsClock(p.state, e, own, last), start, now),
          CostAfter(p.costCents, e, own))
  }

  function NewPhase(e: Event, id: string): Phase
    requires e.body.PhaseStarted?
  {
    Phase(id, FirstText([e.body.name, id]), Running, if e.body.detail == "" then None else Some(e.body.detail), [],
          None, None)
  }

  /** The phase that the `i`-th start opened, after all the events. */
  function PhaseAt(events: seq<Event>, i: nat): Phase
    requires i < |PhaseIds(events)|
  {
    var front, e := events[..|events| - 1], events[|events| - 1];
    var ids := PhaseIds(front);
    if i == |ids| then NewPhase(e, StartId(e, i))
    else PhaseAfter(PhaseAt(front, i), e, Concerns(ids, e, i), i == |ids| - 1,
                    StartOf(front, ids[i]), Now(events))
  }

  // --- one event and one phase ---

  /** The start that is kept for a phase's id. */
  function Kept(r: Rail, id: string): Option<int> {
    if id in r.startMs then Some(r.startMs[id]) else None
  }

  lemma StoppedPhase(p: Phase, r: Rail)
    ensures WithDuration(p, r.startMs, r.run.lastTs)
         == p.(durationMs := DurationAfter(p.durationMs, true, Kept(r, p.id), r.run.lastTs))
  {
  }

  lemma ResolveAt(r: Rail, at: Option<nat>, e: Event, i: nat, own: bool)
    requires InRange(at, r.phases) && i < |r.phases| && e.body.ApprovalResolved? && (own <==> at == Some(i))
    ensures |RailFold.ResolveApproval(r, at, e).phases| == |r.phases|
    ensures var p := r.phases[i];
            RailFold.ResolveApproval(r, at, e).phases[i]
            == p.(state := StateAfter(p.state, e, own, i == |r.phases| - 1),
                  events := LinesAfter(p.events, e, own, r.run.lastTs))
  {
    TwoTexts(e.body.message, e.body.question);
    TwoTexts(e.body.decision, if e.body.approved then "approved" else "declined");
  }

  lemma FailAt(r: Rail, at: Option<nat>, e: Event, i: nat, own: bool)
    requires InRange(at, r.phases) && i < |r.phases| && e.body.ErrorRaised? && (own <==> at == Some(i))
    ensures |RailFold.Fail(r, at, e.body.message).phases| == |r.phases|
    ensures var p := r.phases[i];
            RailFold.Fail(r, at, e.body.message).phases[i]
            == p.(state := StateAfter(p.state, e, own, i == |r.phases| - 1),
                  events := LinesAfter(p.events, e, own, r.run.lastTs),
                  durationMs := DurationAfter(p.durationMs, own, Kept(r, p.id), r.run.lastTs))
  {
    TwoTexts(e.body.message, "error");
    StoppedPhase(r.phases[i].(state := Failed), r);
  }

  lemma PhaseEffectAt(r: Rail, at: Option<nat>, e: Event, i: nat, own: bool)
    requires InRange(at, r.phases) && i < |r.phases| && IsPhaseEvent(e.body) && (own <==> at == Some(i))
    ensures i < |PhaseEffect(r, at, e).phases|
    ensures PhaseEffect(r, at, e).phases[i]
         == PhaseAfter(r.phases[i], e, own, i == |r.phases| - 1, Kept(r, r.phases[i].id), r.run.lastTs)
  {
    var p := r.phases[i];
    match e.body
    case PhaseStarted(_, _, _) =>
      StoppedPhase(if p.state == Running then p.(state := Completed) else p, r);
    case PhaseCompleted(_) => StoppedPhase(p.(state := Completed), r);
    case ApprovalRequested(_, _) =>
    case ApprovalResolved(_, _, _, _) => ResolveAt(r, at, e, i, own);
    case ErrorRaised(_) => FailAt(r, at, e, i, own);
    case RunCompleted => StoppedPhase(p.(state := Completed), r);
  }

  lemma CallAt(r: Rail, at: Option<nat>, e: Event, i: nat, own: bool)
    requires InRange(at, r.phases) && i < |r.phases| && e.body.ModelCall? && (own <==> at == Some(i))
    ensures |CallModel(r, at, e).phases| == |r.phases|
    ensures var p := r.phases[i];
            CallModel(r, at, e).phases[i]
            == p.(events := LinesAfter(p.events, e, own, r.run.lastTs), costCents := CostAfter(p.costCents, e, own))
  {
  }

  /** A verdict only adds its line. */
  lemma VerdictAt(r: Rail, at: Option<nat>, e: Event, i: nat, own: bool)
    requires InRange(at, r.phases) && i < |r.phases| && (own <==> at == Some(i))
    requires e.body.VerificationVerdict? || e.body.ClaimVerdict?
    ensures |LineEffect(r, at, e).phases| == |r.phases|
    ensures var p := r.phases[i];
            LineEffect(r, at, e).phases[i] == p.(events := LinesAfter(p.events, e, own, r.run.lastTs))
  {
    match e.body
    case VerificationVerdict(blocked, summary) =>
      TwoTexts(summary, if blocked then "verification blocked" else "verification passed");
    case ClaimVerdict(status, statement) =>
      TwoTexts(statement, "claim");
      TwoTexts(status, "unverified");
  }

  lemma OnlyLinesAt(p: Phase, e: Event, own: bool, last: bool, start: Option<int>, now: Option<int>)
    requires IsLineEvent(e.body)
    ensures PhaseAfter(p, e, own, last, start, now)
         == p.(events := LinesAfter(p.events, e, own, now), costCents := CostAfter(p.costCents, e, own))
  {
  }

  lemma LineEffectAt(r: Rail, at: Option<nat>, e: Event, i: nat, own: bool)
    requires InRange(at, r.phases) && i < |r.phases| && IsLineEvent(e.body) && (own <==> at == Some(i))
    ensures |LineEffect(r, at, e).phases| == |r.phases|
    ensures LineEffect(r, at, e).phases[i]
         == PhaseAfter(r.phases[i], e, own, i == |r.phases| - 1, Kept(r, r.phases[i].id), r.run.lastTs)
  {
    OnlyLinesAt(r.phases[i], e, own, i == |r.phases| - 1, Kept(r, r.phases[i].id), r.run.lastTs);
    match e.body
    case ModelCall(_, _, _, _) => CallAt(r, at, e, i, own);
    case AssistantMessage =>
    case Other(_) =>
    case _ => VerdictAt(r, at, e, i, own);
  }

  /** No other event touches a phase. */
  lemma OtherAt(p: Phase, e: Event, own: bool, last: bool, start: Option<int>, now: Option<int>)
    requires !IsPhaseEvent(e.body) && !IsLineEvent(e.body)
    ensures PhaseAfter(p, e, own, last, start, now) == p
  {
  }

  lemma StepAt(r: Rail, e: Event, i: nat, own: bool)
    requires i < |r.phases| && (own <==> PhaseFor(r.phases, e.phaseId) == Some(i))
    ensures i < |Step(r, e).phases|
    ensures Step(r, e).phases[i]
         == PhaseAfter(r.phases[i], e, own, i == |r.phases| - 1, Kept(r, r.phases[i].id), Clock(r, e.ts).run.lastTs)
  {
    var c, at := Clock(r, e.ts), PhaseFor(r.phases, e.phaseId);
    if IsPhaseEvent(e.body) {
      PhaseEffectAt(c, at, e, i, own);
    } else if IsLineEvent(e.body) {
      LineEffectAt(c, at, e, i, own);
    } else {
      OtherAt(r.phases[i], e, own, i == |r.phases| - 1, Kept(r, r.phases[i].id), c.run.lastTs);
    }
  }

  lemma StartAt(r: Rail, e: Event)
    requires e.body.PhaseStarted?
    ensures |Step(r, e).phases| == |r.phases| + 1
    ensures Step(r, e).phases[|r.phases|] == NewPhase(e, StartId(e, |r.phases|))
    ensures Step(r, e).startMs == if e.ts.Some? then r.startMs[StartId(e, |r.phases|) := e.ts.value] else r.startMs
  {
    TwoTexts(e.body.payloadId, "phase-" + Decimal(|r.phases|));
    TwoTexts(e.body.name, StartId(e, |r.phases|));
  }

  lemma PhaseEffectKeeps(r: Rail, at: Option<nat>, e: Event)
    requires InRange(at, r.phases) && IsPhaseEvent(e.body) && !e.body.PhaseStarted?
    ensures |PhaseEffect(r, at, e).phases| == |r.phases| && PhaseEffect(r, at, e).startMs == r.startMs
  {
  }

  lemma LineEffectKeeps(r: Rail, at: Option<nat>, e: Event)
    requires InRange(at, r.phases) && IsLineEvent(e.body)
    ensures |LineEffect(r, at, e).phases| == |r.phases| && LineEffect(r, at, e).startMs == r.startMs
  {
    match e.body
    case ModelCall(_, _, _, _) =>
    case _ =>
  }

  lemma OtherKeepsPhases(r: Rail, e: Event)
    requires !e.body.PhaseStarted?
    ensures |Step(r, e).phases| == |r.phases| && Step(r, e).startMs == r.startMs
  {
    var c, at := Clock(r, e.ts), PhaseFor(r.phases, e.phaseId);
    if IsPhaseEvent(e.body) {
      PhaseEffectKeeps(c, at, e);
    } else if IsLineEvent(e.body) {
      LineEffectKeeps(c, at, e);
    }
  }

  /** The phase that the fold picks is the one the event concerns. */
  lemma ConcernedIsPicked(phases: seq<Phase>, e: Event, i: nat)
    requires i < |phases|
    ensures Concerns(Ids(phases), e, i) <==> PhaseFor(phases, e.phaseId) == Some(i)
  {
    var ids := Ids(phases);
    if e.phaseId.Some? && e.phaseId.value in ids {
      var k := LastIndexOf(ids, e.phaseId.value).value;
      if i > k {
        assert ids[k + 1..][i - k - 1] == ids[i];
      } else if i < k {
        assert ids[i + 1..][k - i - 1] == ids[k];
      }
    }
  }

  // --- whole streams ---

  /** The fold's phases, start times and clock, as the events say. */
  ghost predicate IdsShown(events: seq<Event>, r: Rail) {
    && Ids(r.phases) == PhaseIds(events)
    && r.run.lastTs == Now(events)
    && forall id :: Kept(r, id) == StartOf(events, id)
  }

  lemma IdsOfStep(r: Rail, e: Event)
    ensures Ids(Step(r, e).phases) == Ids(r.phases) + if e.body.PhaseStarted? then [StartId(e, |r.phases|)] else []
  {
    if e.body.PhaseStarted? {
      StartAt(r, e);
    } else {
      OtherKeepsPhases(r, e);
    }
    forall i | 0 <= i < |r.phases|
      ensures Step(r, e).phases[i].id == r.phases[i].id
    {
      StepAt(r, e, i, PhaseFor(r.phases, e.phaseId) == Some(i));
    }
  }

  lemma KeptByStep(events: seq<Event>, n: nat, id: string)
    requires n == |events| - 1 && IdsShown(events[..n], Fold(events[..n]))
    ensures Kept(Fold(events), id) == StartOf(events, id)
  {
    var r, e := Fold(events[..n]), events[n];
    assert |r.phases| == |PhaseIds(events[..n])|;
    assert Kept(r, id) == StartOf(events[..n], id);
    if e.body.PhaseStarted? {
      StartAt(r, e);
    } else {
      OtherKeepsPhases(r, e);
    }
  }

  lemma {:induction false} IdsAreShown(events: seq<Event>)
    ensures IdsShown(events, Fold(events))
  {
    ClockIsShown(events);
    if events != [] {
      var n := |events| - 1;
      IdsAreShown(events[..n]);
      IdsOfStep(Fold(events[..n]), events[n]);
      forall id
        ensures Kept(Fold(events), id) == StartOf(events, id)
      {
        KeptByStep(events, n, id);
      }
    }
  }

  lemma PhaseStep(events: seq<Event>, n: nat, i: nat)
    requires n == |events| - 1 && i < |PhaseIds(events[..n])| == |Fold(events[..n]).phases|
    requires Fold(events[..n]).phases[i] == PhaseAt(events[..n], i)
    ensures i < |PhaseIds(events)| && i < |Fold(events).phases| && Fold(events).phases[i] == PhaseAt(events, i)
  {
    var r, e := Fold(events[..n]), events[n];
    IdsAreShown(events[..n]);
    IdsAreShown(events);
    ConcernedIsPicked(r.phases, e, i);
    StepAt(r, e, i, Concerns(PhaseIds(events[..n]), e, i));
    assert Kept(r, r.phases[i].id) == StartOf(events[..n], PhaseIds(events[..n])[i]) by {
      assert Ids(r.phases)[i] == r.phases[i].id;
    }
  }

  lemma {:induction false} PhaseIsShown(events: seq<Event>, i: nat)
    requires i < |PhaseIds(events)|
    ensures |Fold(events).phases| == |PhaseIds(events)| && Fold(events).phases[i] == PhaseAt(events, i)
  {
    var n := |events| - 1;
    IdsAreShown(events);
    IdsAreShown(events[..n]);
    if i < |PhaseIds(events[..n])| {
      PhaseIsShown(events[..n], i);
      PhaseStep(events, n, i);
    } else {
      StartAt(Fold(events[..n]), events[n]);
    }
  }

  /** The last line of a phase that is not narration. */
  predicate IsLastAction(lines: seq<RailLine>, k: nat) {
    && k < |lines| && lines[k].kind != Some(Narration)
    && forall j :: k < j < |lines| ==> lines[j].kind == Some(Narration)
  }

  /** The lines as they were added; an action runs if it is the last one of a running phase of a live run, else not. */
  ghost predicate ShownLines(was: seq<RailLine>, live: bool, shown: seq<RailLine>) {
    && |shown| == |was|
    && forall k :: 0 <= k < |was| ==>
         shown[k] == if was[k].kind == Some(Narration) then was[k]
                     else was[k].(status := Some(if live && IsLastAction(was, k) then LineRunning else LineDone))
  }

  lemma MarkedLines(was: seq<RailLine>, live: bool)
    ensures ShownLines(was, live, Marked(was, live))
  {
    forall k | 0 <= k < |was| && was[k].kind != Some(Narration)
      ensures k == LastAction(was) <==> IsLastAction(was, k)
    {
      assert IsAction(was[k]);
    }
  }

  /**
   For every stream and all options, the model has one phase for each start, in order, and each is what the events
   that concern it make of it: id, name, state, detail, cost, duration and lines, with the statuses of the actions.
   */
  lemma PhasesAreShown(events: seq<Event>, o: Options)
    ensures var m := Reduced(events, o);
            && |m.phases| == |PhaseIds(events)|
            && forall i :: 0 <= i < |m.phases| ==>
                 && m.phases[i] == PhaseAt(events, i).(events := m.phases[i].events)
                 && ShownLines(PhaseAt(events, i).events, m.phases[i].state == Running && !m.done, m.phases[i].events)
  {
    IdsAreShown(events);
    var done := Fold(events).run.done;
    forall i | 0 <= i < |Reduced(events, o).phases|
      ensures Fold(events).phases[i] == PhaseAt(events, i)
      ensures ShownLines(PhaseAt(events, i).events, PhaseAt(events, i).state == Running && !done,
                         Reduced(events, o).phases[i].events)
    {
      PhaseIsShown(events, i);
      MarkedLines(PhaseAt(events, i).events, PhaseAt(events, i).state == Running && !done);
    }
  }
}
