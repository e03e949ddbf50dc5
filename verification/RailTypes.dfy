/**
 The data model of the living rail (packages/tui/src/rail-types.ts) and of the events it is
 folded from. An event body carries the payload fields its reducer branch reads, already decoded.
 */
module RailTypes {
  import opened Wrappers

  datatype PhaseState = Pending | Running | Completed | Waiting | Failed

  datatype LineKind =
    | Tool | Read | Write | Command | Exit | Test | Patch | Branch | Compaction
    | Verification | Claim | Diagnostics | Narration | Approval | Fault

  datatype Tone = Muted | Accent | Success | Warn

  datatype LineStatus = LineRunning | LineDone | LineFailed

  datatype RailLine = RailLine(
    text: string,
    note: Option<string>,
    tone: Option<Tone>,
    kind: Option<LineKind>,
    diff: Option<string>,
    startedAtMs: Option<int>,
    status: Option<LineStatus>)

  datatype Phase = Phase(
    id: string,
    name: string,
    state: PhaseState,
    detail: Option<string>,
    events: seq<RailLine>,
    durationMs: Option<int>,
    costCents: Option<real>)

  datatype ApprovalPrompt = ApprovalPrompt(question: string, options: string)

  datatype TodoStatus = TodoPending | TodoInProgress | TodoCompleted
  datatype TodoItem = TodoItem(text: string, status: TodoStatus)

  /** One raw element of a `tasks` payload; a field of the wrong type reads as None. */
  datatype RawTask = RawTask(text: Option<string>, status: Option<string>)

  datatype Body =
    | RunStarted(title: string, prompt: string)
    | PhaseStarted(payloadId: string, name: string, detail: string)
    | PhaseCompleted(detail: string)
    | ApprovalRequested(message: string, question: string)
    | ApprovalResolved(approved: bool, message: string, question: string, decision: string)
    | ErrorRaised(message: string)
    | RunCompleted
    | TaskUpdate(tasks: seq<RawTask>)
    | VerificationVerdict(blocked: bool, summary: string)
    | ClaimVerdict(status: string, statement: string)
    // `said` is the payload's content after reasoning has been stripped and trimmed.
    | ModelCall(costCents: Option<real>, inputTokens: Option<int>, outputTokens: Option<int>, said: string)
    | AssistantMessage
    // Every other event type, with the rail line it renders as, if any.
    | Other(line: Option<RailLine>)

  /** `ts` is the parsed timestamp in milliseconds, or None when it does not parse. */
  datatype Event = Event(runId: Option<string>, ts: Option<int>, phaseId: Option<string>, body: Body)

  datatype RunStatus = RunStatus(
    elapsedMs: int,
    costCents: real,
    safety: string,
    push: bool,
    model: string,
    inputTokens: int,
    outputTokens: int,
    startedAtMs: Option<int>)

  datatype RailModel = RailModel(
    runId: string,
    title: string,
    autonomyLabel: string,
    phases: seq<Phase>,
    status: RunStatus,
    approval: Option<ApprovalPrompt>,
    todos: Option<seq<TodoItem>>,
    done: bool,
    errored: bool)

  datatype Options = Options(
    autonomyLabel: Option<string>,
    safety: Option<string>,
    model: Option<string>,
    push: Option<bool>,
    nowMs: Option<int>)
}
