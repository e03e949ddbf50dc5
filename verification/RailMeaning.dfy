/**
 What the rail shows of a stream (packages/tui/src/rail-reducer.ts:189-448), read off the events themselves: each
 field of the run from the last or the first event that decides it, and each phase by itself from the events that
 concern it.
 */
module RailMeaning {
  import opened Wrappers
  import opened Seqs
  import opened Text
  import opened RailTypes
  import opened RailFold

  // --- the run, from the last event that decides ---

  /** The last event of a kind, if there is any. */
  function LastOf(events: seq<Event>, p: Event -> bool): (r: Option<Event>)
    ensures r.None? ==> forall i :: 0 <= i < |events| ==> !p(events[i])
    ensures r.Some? ==> exists i :: 0 <= i < |events| && events[i] == r.value && p(r.value)
                                    && forall j :: i < j < |events| ==> !p(events[j])
  {
    if events == [] then None
    else if p(events[|events| - 1]) then Some(events[|events| - 1])
    else LastOf(events[..|events| - 1], p)
  }

  function FirstOf(events: seq<Event>, p: Event -> bool): (r: Option<Event>)
    ensures r.None? ==> forall i :: 0 <= i < |events| ==> !p(events[i])
    ensures r.Some? ==> exists i :: 0 <= i < |events| && events[i] == r.value && p(r.value)
                                    && forall j :: 0 <= j < i ==> !p(events[j])
  {
    if events == [] then None
    else
      match FirstOf(events[..|events| - 1], p)
      case Some(e) => Some(e)
      case None => if p(events[|events| - 1]) then Some(events[|events| - 1]) else None
  }

  predicate AnyOf(events: seq<Event>, p: Event -> bool) {
    exists i :: 0 <= i < |events| && p(events[i])
  }

  function SumOf(events: seq<Event>, f: Event -> int): int {
    if events == [] then 0 else SumOf(events[..|events| - 1], f) + f(events[|events| - 1])
  }

  /** Asks for an approval, or settles that none is open. */
  predicate DecidesApproval(e: Event) {
    e.body.ApprovalRequested? || e.body.ApprovalResolved? || e.body.RunCompleted?
  }

  predicate GivesTitle(e: Event) {
    e.body.RunStarted? && (e.body.title != "" || e.body.prompt != "")
  }

  predicate GivesRunId(e: Event) {
    e.body.RunStarted? && e.runId.Some?
  }

  predicate GivesTodos(e: Event) {
    e.body.TaskUpdate?
  }

  predicate EndsRun(e: Event) {
    e.body.RunCompleted?
  }

  predicate Spoils(e: Event) {
    || e.body.ErrorRaised?
    || (e.body.VerificationVerdict? && e.body.blocked)
    || (e.body.ClaimVerdict? && e.body.status == "refuted")
  }

  predicate HasTime(e: Event) {
    e.ts.Some?
  }

  function InputOf(e: Event): int {
    if e.body.ModelCall? && e.body.inputTokens.Some? then e.body.inputTokens.value else 0
  }

  function OutputOf(e: Event): int {
    if e.body.ModelCall? && e.body.outputTokens.Some? then e.body.outputTokens.value else 0
  }

  /** The first text that says anything. */
  function FirstText(texts: seq<string>): string {
    if texts == [] then "" else if texts[0] != "" then texts[0] else FirstText(texts[1..])
  }

  /** The model as a list of facts about the stream, other than its phases and its cost. */
  ghost predicate ShowsRun(events: seq<Event>, o: Options, m: RailModel) {
    && ShowsApproval(events, m.approval)
    && ShowsTodos(events, m.todos)
    && m.runId == (match LastOf(events, GivesRunId) case Some(e) => e.runId.value case None => "")
    && m.title == (match LastOf(events, GivesTitle)
                   case Some(e) => FirstText([e.body.title, e.body.prompt])
                   case None => "")
    && (m.done <==> AnyOf(events, EndsRun))
    && (m.errored <==> AnyOf(events, Spoils))
    && m.status.inputTokens == SumOf(events, InputOf)
    && m.status.outputTokens == SumOf(events, OutputOf)
    && m.status.startedAtMs == (match FirstOf(events, HasTime) case Some(e) => e.ts case None => None)
    && m.status.elapsedMs == TimeShown(events, o)
    && m.autonomyLabel == o.autonomyLabel.GetOr("") && m.status.safety == o.safety.GetOr("standard-safe")
    && m.status.push == o.push.GetOr(false) && m.status.model == o.model.GetOr("mock")
  }

  /** An approval is open exactly when the last event that decides is a request, and its question is that request's. */
  predicate ShowsApproval(events: seq<Event>, approval: Option<ApprovalPrompt>) {
    var last := LastOf(events, DecidesApproval);
    && (approval.Some? <==> last.Some? && last.value.body.ApprovalRequested?)
    && (approval.Some? ==>
          && approval.value.question == FirstText([last.value.body.message, last.value.body.question, "Approve?"])
          && approval.value.options == "[y/N/always]")
  }

  /** The todos are those of the last update, one by one. */
  predicate ShowsTodos(events: seq<Event>, todos: Option<seq<TodoItem>>) {
    var last := LastOf(events, GivesTodos);
    && (todos.Some? <==> last.Some?)
    && (todos.Some? ==>
          && |todos.value| == |last.value.body.tasks|
          && forall i :: 0 <= i < |todos.value| ==> ShowsTask(last.value.body.tasks[i], todos.value[i]))
  }

  predicate ShowsTask(t: RawTask, item: TodoItem) {
    && item.text == t.text.GetOr("")
    && (item.status == TodoInProgress <==> t.status == Some("in_progress"))
    && (item.status == TodoCompleted <==> t.status == Some("completed"))
  }

  /** From the first timestamp to the last one of a finished run; to the view's clock, if there is one, for others. */
  function TimeShown(events: seq<Event>, o: Options): int {
    match FirstOf(events, HasTime)
    case None => 0
    case Some(first) =>
      var last := LastOf(events, HasTime);
      var end := if !AnyOf(events, EndsRun) && o.nowMs.Some? then o.nowMs
                 else if last.Some? then last.value.ts else first.ts;
      if end.GetOr(0) > first.ts.GetOr(0) then end.GetOr(0) - first.ts.GetOr(0) else 0
  }

  // --- the run is what the fold computes ---

  lemma TextBefore(a: string, rest: seq<string>)
    ensures FirstText([a] + rest) == OrElse(a, FirstText(rest))
  {
    HeadAndRest(a, rest);
  }

  lemma TwoTexts(a: string, b: string)
    ensures FirstText([a, b]) == OrElse(a, b)
  {
    TextBefore(b, []);
    TextBefore(a, [b]);
    assert [b] + [] == [b] && [a] + [b] == [a, b];
  }

  lemma ThreeTexts(a: string, b: string, c: string)
    ensures FirstText([a, b, c]) == OrElse(a, OrElse(b, c))
  {
    TwoTexts(b, c);
    TextBefore(a, [b, c]);
    assert [a] + [b, c] == [a, b, c];
  }

  /** What an event makes of the open approval. */
  function ApprovalAfter(was: Option<ApprovalPrompt>, e: Event): Option<ApprovalPrompt> {
    if e.body.ApprovalRequested? then
      Some(ApprovalPrompt(FirstText([e.body.message, e.body.question, "Approve?"]), "[y/N/always]"))
    else if DecidesApproval(e) then None
    else was
  }

  lemma PhaseEffectRun(r: Rail, at: Option<nat>, e: Event)
    requires InRange(at, r.phases) && IsPhaseEvent(e.body)
    ensures PhaseEffect(r, at, e).run
         == r.run.(approval := ApprovalAfter(r.run.approval, e),
                   done := r.run.done || EndsRun(e), errored := r.run.errored || Spoils(e))
  {
    match e.body
    case ApprovalRequested(message, question) => ThreeTexts(message, question, "Approve?");
    case _ =>
  }

  lemma LineEffectRun(r: Rail, at: Option<nat>, e: Event)
    requires InRange(at, r.phases) && IsLineEvent(e.body)
    ensures var s := LineEffect(r, at, e).run;
            s == r.run.(costCents := s.costCents, errored := r.run.errored || Spoils(e),
                        inputTokens := r.run.inputTokens + InputOf(e), outputTokens := r.run.outputTokens + OutputOf(e))
  {
    match e.body
    case ModelCall(_, _, _, _) =>
    case _ =>
  }

  /** The run's fields other than its cost. */
  ghost predicate RunStep(run: Run, e: Event, next: Run) {
    && next.approval == ApprovalAfter(run.approval, e)
    && next.done == (run.done || EndsRun(e))
    && next.errored == (run.errored || Spoils(e))
    && next.inputTokens == run.inputTokens + InputOf(e)
    && next.outputTokens == run.outputTokens + OutputOf(e)
    && next.runId == (if GivesRunId(e) then e.runId.value else run.runId)
    && next.title == (if GivesTitle(e) then FirstText([e.body.title, e.body.prompt]) else run.title)
    && (if GivesTodos(e) then next.todos.Some? && ShowsTodos([e], next.todos) else next.todos == run.todos)
    && next.firstTs == (if run.firstTs.Some? then run.firstTs else e.ts)
    && next.lastTs == (if e.ts.Some? then e.ts else run.lastTs)
  }

  lemma OtherRun(run: Run, e: Event)
    requires e.body.RunStarted? || e.body.TaskUpdate?
    ensures var s := RunEffect(run, e);
            && s == run.(runId := s.runId, title := s.title, todos := s.todos)
            && s.runId == (if GivesRunId(e) then e.runId.value else run.runId)
            && s.title == (if GivesTitle(e) then FirstText([e.body.title, e.body.prompt]) else run.title)
            && (if GivesTodos(e) then s.todos.Some? && ShowsTodos([e], s.todos) else s.todos == run.todos)
  {
    match e.body
    case RunStarted(title, prompt) => TwoTexts(title, prompt);
    case TaskUpdate(tasks) =>
  }

  lemma ClockRun(r: Rail, ts: Option<int>)
    ensures Clock(r, ts).run == r.run.(firstTs := if r.run.firstTs.Some? then r.run.firstTs else ts,
                                       lastTs := if ts.Some? then ts else r.run.lastTs)
    ensures Clock(r, ts).phases == r.phases
  {
  }

  lemma DispatchRun(c: Rail, at: Option<nat>, e: Event)
    requires InRange(at, c.phases)
    ensures var s := Dispatch(c, at, e).run;
            RunStep(c.run.(firstTs := None, lastTs := None), e, s.(firstTs := e.ts, lastTs := e.ts))
            && s.firstTs == c.run.firstTs && s.lastTs == c.run.lastTs
  {
    if IsPhaseEvent(e.body) {
      PhaseEffectRun(c, at, e);
    } else if IsLineEvent(e.body) {
      LineEffectRun(c, at, e);
    } else {
      OtherRun(c.run, e);
    }
  }

  lemma StepRun(r: Rail, e: Event)
    ensures RunStep(r.run, e, Step(r, e).run)
  {
    ClockRun(r, e.ts);
    DispatchRun(Clock(r, e.ts), PhaseFor(r.phases, e.phaseId), e);
  }

  // --- whole streams ---

  lemma LastStep(events: seq<Event>, n: nat, p: Event -> bool)
    requires n == |events| - 1
    ensures LastOf(events, p) == if p(events[n]) then Some(events[n]) else LastOf(events[..n], p)
    ensures FirstOf(events, p) == if FirstOf(events[..n], p).Some? then FirstOf(events[..n], p)
                                  else if p(events[n]) then Some(events[n]) else None
    ensures AnyOf(events, p) <==> AnyOf(events[..n], p) || p(events[n])
  {
    if AnyOf(events[..n], p) {
      var i :| 0 <= i < n && p(events[..n][i]);
      assert p(events[i]);
    }
  }

  lemma {:induction false} ApprovalShown(events: seq<Event>)
    ensures ShowsApproval(events, Fold(events).run.approval)
  {
    if events != [] {
      var n := |events| - 1;
      ApprovalShown(events[..n]);
      LastStep(events, n, DecidesApproval);
      StepRun(Fold(events[..n]), events[n]);
    }
  }

  lemma {:induction false} TodosShown(events: seq<Event>)
    ensures ShowsTodos(events, Fold(events).run.todos)
  {
    if events != [] {
      var n := |events| - 1;
      TodosShown(events[..n]);
      LastStep(events, n, GivesTodos);
      StepRun(Fold(events[..n]), events[n]);
      LastStep([events[n]], 0, GivesTodos);
    }
  }

  ghost predicate NamesShown(events: seq<Event>, run: Run) {
    && run.runId == (match LastOf(events, GivesRunId) case Some(e) => e.runId.value case None => "")
    && run.title == (match LastOf(events, GivesTitle)
                     case Some(e) => FirstText([e.body.title, e.body.prompt])
                     case None => "")
  }

  lemma {:induction false} NamesAreShown(events: seq<Event>)
    ensures NamesShown(events, Fold(events).run)
  {
    if events != [] {
      var n := |events| - 1;
      NamesAreShown(events[..n]);
      LastStep(events, n, GivesRunId);
      LastStep(events, n, GivesTitle);
      StepRun(Fold(events[..n]), events[n]);
    }
  }

  ghost predicate FlagsShown(events: seq<Event>, run: Run) {
    && (run.done <==> AnyOf(events, EndsRun))
    && (run.errored <==> AnyOf(events, Spoils))
    && run.inputTokens == SumOf(events, InputOf)
    && run.outputTokens == SumOf(events, OutputOf)
  }

  lemma {:induction false} FlagsAreShown(events: seq<Event>)
    ensures FlagsShown(events, Fold(events).run)
  {
    if events != [] {
      var n := |events| - 1;
      FlagsAreShown(events[..n]);
      LastStep(events, n, EndsRun);
      LastStep(events, n, Spoils);
      StepRun(Fold(events[..n]), events[n]);
    }
  }

  ghost predicate ClockShown(events: seq<Event>, run: Run) {
    && run.firstTs == (match FirstOf(events, HasTime) case Some(e) => e.ts case None => None)
    && run.lastTs == (match LastOf(events, HasTime) case Some(e) => e.ts case None => None)
    && (run.firstTs.Some? <==> run.lastTs.Some?)
  }

  lemma {:induction false} ClockIsShown(events: seq<Event>)
    ensures ClockShown(events, Fold(events).run)
  {
    if events != [] {
      var n := |events| - 1;
      ClockIsShown(events[..n]);
      LastStep(events, n, HasTime);
      StepRun(Fold(events[..n]), events[n]);
    }
  }

  lemma TimeIsShown(events: seq<Event>, o: Options)
    ensures Elapsed(Fold(events).run, o.nowMs) == TimeShown(events, o)
  {
    ClockIsShown(events);
    FlagsAreShown(events);
  }

  /**
   For every stream and all options: the open approval is the one of the last event that opens or settles one, title
   and id are those of the last start that gives one, the todos those of the last update; the run is done or failed
   if some event says so; tokens add up; and the elapsed time runs from the first timestamp.
   */
  lemma RunIsShown(events: seq<Event>, o: Options)
    ensures ShowsRun(events, o, Reduced(events, o))
  {
    ApprovalShown(events);
    TodosShown(events);
    NamesAreShown(events);
    FlagsAreShown(events);
    ClockIsShown(events);
    TimeIsShown(events, o);
  }
}
