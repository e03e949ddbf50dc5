/**
 The pure meaning of the rail reducer (packages/tui/src/rail-reducer.ts): one step per event over
 an immutable state, and the read-out of the model from the last state. There is no index from
 phase ids to phases here: the phase an event names is found by searching.
 */
module RailFold {
  import opened Wrappers
  import opened RailTypes
  import opened Text

  /** The reducer's variables other than its phases. */
  datatype Run = Run(
    runId: string,
    title: string,
    done: bool,
    errored: bool,
    costCents: real,
    inputTokens: int,
    outputTokens: int,
    approval: Option<ApprovalPrompt>,
    todos: Option<seq<TodoItem>>,
    firstTs: Option<int>,
    lastTs: Option<int>)

  datatype Rail = Rail(phases: seq<Phase>, startMs: map<string, int>, run: Run)

  const IDLE := Run("", "", false, false, 0.0, 0, 0, None, None, None, None)
  const EMPTY := Rail([], map[], IDLE)

  /** The JavaScript `a || b` on strings. */
  function OrElse(a: string, b: string): string {
    if a != "" then a else b
  }

  function NonEmpty(s: string): Option<string> {
    if s != "" then Some(s) else None
  }

  function Ids(phases: seq<Phase>): seq<string> {
    seq(|phases|, i requires 0 <= i < |phases| => phases[i].id)
  }

  /** The last position that carries `id`. */
  function LastIndexOf(ids: seq<string>, id: string): (r: Option<nat>)
    ensures r.None? ==> id !in ids
    ensures r.Some? ==> r.value < |ids| && ids[r.value] == id && id !in ids[r.value + 1..]
  {
    if ids == [] then None
    else if ids[|ids| - 1] == id then Some(|ids| - 1)
    else
      var r := LastIndexOf(ids[..|ids| - 1], id);
      assert ids == ids[..|ids| - 1] + [ids[|ids| - 1]];
      r
  }

  function Current(phases: seq<Phase>): (r: Option<nat>)
    ensures r.Some? <==> phases != []
    ensures r.Some? ==> r.value == |phases| - 1
  {
    if phases == [] then None else Some(|phases| - 1)
  }

  /** The phase an event is attributed to: the one it names, or else the current one. */
  function PhaseFor(phases: seq<Phase>, id: Option<string>): (r: Option<nat>)
    ensures r.Some? <==> phases != []
    ensures r.Some? ==> r.value < |phases|
  {
    if id.Some? && LastIndexOf(Ids(phases), id.value).Some?
    then LastIndexOf(Ids(phases), id.value)
    else Current(phases)
  }

  function Stamped(line: RailLine, lastTs: Option<int>): RailLine {
    if line.startedAtMs.None? && lastTs.Some? then line.(startedAtMs := lastTs) else line
  }

  function WithLine(phase: Phase, line: RailLine, lastTs: Option<int>): Phase {
    phase.(events := phase.events + [Stamped(line, lastTs)])
  }

  /** Closes a phase's clock at `lastTs`, unless it was closed before or never started. */
  function WithDuration(phase: Phase, startMs: map<string, int>, lastTs: Option<int>): Phase {
    if phase.id in startMs && lastTs.Some? && phase.durationMs.None?
    then
      var ms := lastTs.value - startMs[phase.id];
      phase.(durationMs := Some(if ms > 0 then ms else 0))
    else phase
  }

  function Line(text: string, tone: Tone, kind: Option<LineKind>): RailLine {
    RailLine(text, None, Some(tone), kind, None, None, None)
  }

  // Below, `at` is the position of the phase an event is attributed to.

  predicate InRange(at: Option<nat>, phases: seq<Phase>) {
    at.Some? ==> at.value < |phases|
  }

  function PushAt(r: Rail, at: Option<nat>, line: RailLine): Rail
    requires InRange(at, r.phases)
  {
    match at
    case None => r
    case Some(k) => r.(phases := r.phases[k := WithLine(r.phases[k], line, r.run.lastTs)])
  }

  function Clock(r: Rail, ts: Option<int>): Rail {
    match ts
    case None => r
    case Some(t) => r.(run := r.run.(firstTs := Some(r.run.firstTs.GetOr(t)), lastTs := Some(t)))
  }

  function NewPhaseId(e: Event, count: nat): string
    requires e.body.PhaseStarted?
  {
    match e.phaseId
    case Some(id) => id
    case None => OrElse(e.body.payloadId, "phase-" + Decimal(count))
  }

  /** The current phase before the next one opens: a running phase is over, and its clock stops. */
  function RollOver(r: Rail): Rail {
    if r.phases == [] then r
    else
      var prev := r.phases[|r.phases| - 1];
      r.(phases := r.phases[|r.phases| - 1 :=
        WithDuration(if prev.state == Running then prev.(state := Completed) else prev, r.startMs, r.run.lastTs)])
  }

  function Opened(id: string, name: string, detail: string): Phase {
    Phase(id, OrElse(name, id), Running, NonEmpty(detail), [], None, None)
  }

  function StartPhase(r: Rail, e: Event): Rail
    requires e.body.PhaseStarted?
  {
    var id := NewPhaseId(e, |r.phases|);
    RollOver(r).(phases := RollOver(r).phases + [Opened(id, e.body.name, e.body.detail)],
                 startMs := if e.ts.Some? then r.startMs[id := e.ts.value] else r.startMs)
  }

  function CompletePhase(r: Rail, at: Option<nat>, detail: string): Rail
    requires InRange(at, r.phases)
  {
    match at
    case None => r
    case Some(k) =>
      var closed := WithDuration(r.phases[k].(state := Completed), r.startMs, r.run.lastTs);
      r.(phases := r.phases[k := if detail != "" then closed.(detail := Some(detail)) else closed])
  }

  function RequestApproval(r: Rail, at: Option<nat>, question: string): Rail
    requires InRange(at, r.phases)
  {
    var asked := r.(run := r.run.(approval := Some(ApprovalPrompt(question, "[y/N/always]"))));
    match at
    case None => asked
    case Some(k) => asked.(phases := r.phases[k := r.phases[k].(state := Waiting)])
  }

  function ResolveApproval(r: Rail, at: Option<nat>, e: Event): Rail
    requires InRange(at, r.phases) && e.body.ApprovalResolved?
  {
    var cleared := r.(run := r.run.(approval := None));
    var resumed :=
      if at.Some? && r.phases[at.value].state == Waiting
      then cleared.(phases := r.phases[at.value := r.phases[at.value].(state := Running)])
      else cleared;
    var question := OrElse(e.body.message, e.body.question);
    if question == "" then resumed
    else PushAt(resumed, at, DecisionLine(question, e.body.decision, e.body.approved))
  }

  function DecisionLine(question: string, decision: string, approved: bool): RailLine {
    Line(question + " \U{2192} " + OrElse(decision, if approved then "approved" else "declined"),
         if approved then Success else Warn, Some(Approval))
  }

  function Fail(r: Rail, at: Option<nat>, message: string): Rail
    requires InRange(at, r.phases)
  {
    var errored := r.(run := r.run.(errored := true));
    match at
    case None => errored
    case Some(k) =>
      PushAt(errored.(phases := r.phases[k := WithDuration(r.phases[k].(state := Failed), r.startMs, r.run.lastTs)]),
             at, Line(OrElse(message, "error"), Warn, None))
  }

  function Finished(phase: Phase, startMs: map<string, int>, lastTs: Option<int>): Phase {
    if phase.state == Running || phase.state == Waiting
    then WithDuration(phase.(state := Completed), startMs, lastTs)
    else phase
  }

  function FinishedAll(phases: seq<Phase>, startMs: map<string, int>, lastTs: Option<int>): seq<Phase> {
    seq(|phases|, i requires 0 <= i < |phases| => Finished(phases[i], startMs, lastTs))
  }

  function CompleteRun(r: Rail): Rail {
    r.(run := r.run.(done := true, approval := None),
       phases := FinishedAll(r.phases, r.startMs, r.run.lastTs))
  }

  function Todo(t: RawTask): TodoItem {
    TodoItem(t.text.GetOr(""),
             if t.status == Some("in_progress") then TodoInProgress
             else if t.status == Some("completed") then TodoCompleted
             else TodoPending)
  }

  function Todos(tasks: seq<RawTask>): seq<TodoItem> {
    seq(|tasks|, i requires 0 <= i < |tasks| => Todo(tasks[i]))
  }

  /** A bad verdict marks the whole run as errored. */
  function Blame(r: Rail, bad: bool): Rail {
    r.(run := r.run.(errored := r.run.errored || bad))
  }

  function VerdictLine(blocked: bool, summary: string): RailLine {
    Line(OrElse(summary, if blocked then "verification blocked" else "verification passed"),
         if blocked then Warn else Success, Some(Verification))
  }

  function ClaimLine(status: string, statement: string): RailLine {
    Line(OrElse(statement, "claim") + " \U{2014} " + OrElse(status, "unverified"),
         if status == "refuted" then Warn else if status == "verified" then Success else Muted,
         Some(Claim))
  }

  function AddCost(r: Rail, at: Option<nat>, cents: real): Rail
    requires InRange(at, r.phases)
  {
    var total := r.(run := r.run.(costCents := r.run.costCents + cents));
    match at
    case None => total
    case Some(k) =>
      total.(phases := r.phases[k := r.phases[k].(costCents := Some(r.phases[k].costCents.GetOr(0.0) + cents))])
  }

  function CountTokens(r: Rail, input: Option<int>, output: Option<int>): Rail {
    r.(run := r.run.(inputTokens := r.run.inputTokens + input.GetOr(0),
                     outputTokens := r.run.outputTokens + output.GetOr(0)))
  }

  function CallModel(r: Rail, at: Option<nat>, e: Event): Rail
    requires InRange(at, r.phases) && e.body.ModelCall?
  {
    var costed := if e.body.costCents.Some? then AddCost(r, at, e.body.costCents.value) else r;
    var counted := CountTokens(costed, e.body.inputTokens, e.body.outputTokens);
    if e.body.said == "" then counted
    else PushAt(counted, at, Line(e.body.said, Accent, Some(Narration)))
  }

  function WithoutTrailingNarration(events: seq<RailLine>): seq<RailLine> {
    if events != [] && events[|events| - 1].kind == Some(Narration) then events[..|events| - 1] else events
  }

  function DropNarration(r: Rail, at: Option<nat>): Rail
    requires InRange(at, r.phases)
  {
    match at
    case None => r
    case Some(k) =>
      r.(phases := r.phases[k := r.phases[k].(events := WithoutTrailingNarration(r.phases[k].events))])
  }

  /** Events that open, close or change the state of phases. */
  predicate IsPhaseEvent(b: Body) {
    || b.PhaseStarted? || b.PhaseCompleted? || b.ApprovalRequested? || b.ApprovalResolved?
    || b.ErrorRaised? || b.RunCompleted?
  }

  function PhaseEffect(r: Rail, at: Option<nat>, e: Event): Rail
    requires InRange(at, r.phases) && IsPhaseEvent(e.body)
  {
    match e.body
    case PhaseStarted(_, _, _) => StartPhase(r, e)
    case PhaseCompleted(detail) => CompletePhase(r, at, detail)
    case ApprovalRequested(message, question) =>
      RequestApproval(r, at, OrElse(message, OrElse(question, "Approve?")))
    case ApprovalResolved(_, _, _, _) => ResolveApproval(r, at, e)
    case ErrorRaised(message) => Fail(r, at, message)
    case RunCompleted => CompleteRun(r)
  }

  /** Events that add to or drop from what a phase shows and costs. */
  predicate IsLineEvent(b: Body) {
    b.VerificationVerdict? || b.ClaimVerdict? || b.ModelCall? || b.AssistantMessage? || b.Other?
  }

  function LineEffect(r: Rail, at: Option<nat>, e: Event): Rail
    requires InRange(at, r.phases) && IsLineEvent(e.body)
  {
    match e.body
    case VerificationVerdict(blocked, summary) => PushAt(Blame(r, blocked), at, VerdictLine(blocked, summary))
    case ClaimVerdict(status, statement) => PushAt(Blame(r, status == "refuted"), at, ClaimLine(status, statement))
    case ModelCall(_, _, _, _) => CallModel(r, at, e)
    case AssistantMessage => DropNarration(r, at)
    case Other(line) => if line.Some? then PushAt(r, at, line.value) else r
  }

  function RunEffect(run: Run, e: Event): Run
    requires e.body.RunStarted? || e.body.TaskUpdate?
  {
    match e.body
    case RunStarted(title, prompt) =>
      run.(runId := e.runId.GetOr(run.runId), title := OrElse(title, OrElse(prompt, run.title)))
    case TaskUpdate(tasks) => run.(todos := Some(Todos(tasks)))
  }

  /** The effect of an event that is attributed to the phase at `at`. */
  function Dispatch(r: Rail, at: Option<nat>, e: Event): Rail
    requires InRange(at, r.phases)
  {
    if IsPhaseEvent(e.body) then PhaseEffect(r, at, e)
    else if IsLineEvent(e.body) then LineEffect(r, at, e)
    else r.(run := RunEffect(r.run, e))
  }

  function Step(r: Rail, e: Event): Rail {
    Dispatch(Clock(r, e.ts), PhaseFor(r.phases, e.phaseId), e)
  }

  function FoldFrom(r: Rail, events: seq<Event>): Rail {
    if events == [] then r else Step(FoldFrom(r, events[..|events| - 1]), events[|events| - 1])
  }

  function Fold(events: seq<Event>): Rail {
    FoldFrom(EMPTY, events)
  }

  // --- the read-out ---

  predicate IsAction(line: RailLine) {
    line.kind != Some(Narration)
  }

  /** The position of the last action line, or -1. */
  function LastAction(lines: seq<RailLine>): (k: int)
    ensures -1 <= k < |lines|
    ensures k >= 0 ==> IsAction(lines[k])
    ensures forall i :: k < i < |lines| ==> !IsAction(lines[i])
  {
    if lines == [] then -1
    else if IsAction(lines[|lines| - 1]) then |lines| - 1
    else LastAction(lines[..|lines| - 1])
  }

  /** The status pass: the last action of a live running phase runs, every other action is done. */
  function Marked(lines: seq<RailLine>, live: bool): seq<RailLine> {
    seq(|lines|, i requires 0 <= i < |lines| =>
      if !IsAction(lines[i]) then lines[i]
      else lines[i].(status := Some(if i == LastAction(lines) && live then LineRunning else LineDone)))
  }

  function MarkedPhase(phase: Phase, done: bool): Phase {
    phase.(events := Marked(phase.events, phase.state == Running && !done))
  }

  function MarkedPhases(phases: seq<Phase>, done: bool): seq<Phase> {
    seq(|phases|, i requires 0 <= i < |phases| => MarkedPhase(phases[i], done))
  }

  function Elapsed(run: Run, nowMs: Option<int>): int {
    match run.firstTs
    case None => 0
    case Some(first) =>
      var end := if run.done then run.lastTs.GetOr(nowMs.GetOr(first)) else nowMs.GetOr(run.lastTs.GetOr(first));
      if end - first > 0 then end - first else 0
  }

  function ReadOut(r: Rail, o: Options): RailModel {
    RailModel(
      r.run.runId, r.run.title, o.autonomyLabel.GetOr(""), MarkedPhases(r.phases, r.run.done),
      RunStatus(Elapsed(r.run, o.nowMs), r.run.costCents, o.safety.GetOr("standard-safe"), o.push.GetOr(false),
                o.model.GetOr("mock"), r.run.inputTokens, r.run.outputTokens, r.run.firstTs),
      r.run.approval, r.run.todos, r.run.done, r.run.errored)
  }

  /** The model a stream of events is reduced to. */
  function Reduced(events: seq<Event>, o: Options): RailModel {
    ReadOut(Fold(events), o)
  }
}
