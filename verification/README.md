# Excalibur: verified models of its stateful core

These Dafny modules model the parts of Excalibur that keep state or take text apart, and prove what they promise over
every input and every run. Where the TypeScript changes things step by step, the model does too: classes with fields,
loops with invariants, arrays written in place. Each such method is proved equal to a pure function or relation, and
the lemmas are about that. `dafny verify dfyconfig.toml` checks everything.

- **The living rail** (`Rail*.dfy`). The reducer that folds an event log into phases, durations, cost, approval and
  action lines by mutating objects equals a pure step folded over the events. Everything the model shows is told from
  the events without that step. Frames never take anything back, phases are timed over disjoint intervals, cost is
  conserved, and at most one line runs.
- **Unified diffs** (`Diff*.dfy`). The parser, the independent counter, the changed spans, and the two pairings of
  deleted and added lines. What the parser promises on every text, when a printed diff is read back, and when parser
  and counter agree.
- **Protocols** (`Acp*.dfy`, `Stdio.dfy`, `QueueEditor.dfy`, `Terminal.dfy`, `RawEditor*.dfy`). The JSON-RPC client,
  newline framing, the queue of lines and questions, and the raw editor's repainting over a model of a terminal.
- **Registries and stores** (`Template*.dfy`, `Definition*.dfy`, `Contributions.dfy`, `Loader*.dfy`, `Lane*.dfy`,
  `WorkItem*.dfy`). Parsed definitions, the contribution registry with the load that feeds it, and the kanban store.
- **Parsers of prose** (`Command*.dfy`, `Highlight*.dfy`, `Inline*.dfy`, `Markdown*.dfy`). `@excalibur` commands, and
  the markdown model that is parsed again on every frame.

Besides being tied to its method, each operation is described once more in the terms of its input and output: from the
events, the words, the files or the cells alone, by a grammar, a list of offers or a read-back.

Strings are sequences of code points; where offsets count UTF-16 units, the units are spelled out. Timestamps and
ranks are integers, costs are real numbers. Clocks, directory listings and decoded files are parameters.

## What does not hold

Some promises fail on inputs the program accepts. The code is modelled as it is, and the exact condition is proved.

- A changed line that begins with `++ ` or `-- ` prints as `+++ ` or `--- `, and the parser takes it for a file header
  inside a hunk. The counter does not. They agree if and only if there is no such line
  (`DiffAgree.ParserAndCounterAgreeIff`).
- An added or deleted file without hunks, such as a binary or an empty one, is read as a changed file: it loses its
  mark as new or deleted and keeps an old path (`DiffAgree.StatusLost`, `AddedBinaryMisread`).
- Renames and binary changes carry bare paths, which the parser nevertheless strips of a leading `a/` or `b/`. The
  header `diff --git a/<path> b/<path>` of a binary or mode-only change is split at its last ` b/`, so a path such as
  `a b/c.png` is read as a change of `c.png` (`DiffAgree.SpacedPathMisread`). These three and the header-like lines
  are the only ways in which a printed diff is misread (`DiffAgree.RoundTripIff`).
- In diffs without `diff --git` lines the counter never leaves a hunk: it takes the headers of every file behind the
  first one with hunks for changed lines and does not count the file. It is right if and only if there is no such file
  (`DiffPlain.PlainStatIff`). The parser misreads only header-like lines, added or deleted files with a time behind
  `/dev/null`, and names without a side that begin with `a/` or `b/` (`DiffPlain.PlainRoundTripIff`).
- The durations of phases whose starts carry a timestamp always fit into the elapsed time, if timestamps do not go back
  (`RailTime.TimedDurationsFit`). A phase whose start has none is timed only if a timed phase shares its id, in either
  order, and then from that one's start; its duration can break the bound (`UnparsedStartOvercounts`,
  `UntimedWaitOvercounts`). After any such stream, an end of the run breaks it if and only if two clocks run at once,
  or the durations and the running clock exceed the elapsed time already (`SomeEndBreaksIff`,
  `RunningClockBreaksIff`). Timestamps that go back can break it too (`ClockBackOvercounts`). Whatever timestamps say,
  durations, running clock and the time outside of them add up to the time passed, unless ids are shared as above
  (`RailBalance.TimeBalances`); so the bound breaks if and only if the time that shows in no duration is negative
  (`RailBalance.OvercountsIff`).
- A raw-editor frame without a footer whose input ends exactly at the right edge is believed to start one row too high;
  every further paint erases one more row above the box (`RawEditorProperties.PaintKeepsTopIff`, `OverhangClimbs`). The
  layout function puts that cursor on a row which the input, by the layout's own count, does not have. Nothing else
  touches what is above the box (`SessionSparesScrollback`).
- A flag called `__proto__` is lost, because it is assigned to an object (`CommandRoundTrip.RoundTripIff`).
- A work-item key is fresh in the directory, but not for ever. A delete frees its number for the next item if and only
  if no file has a larger one (`WorkItemRuns.DeleteFreesIff`); over a run, a create gives out a key for the second time
  if and only if the item with the largest number given out so far is gone (`WorkItemRuns.KeyReusedIff`).
- A status update takes the rank of the old lane along. It makes two ranks of a lane equal if and only if an item there
  has that rank already (`WorkItemRuns.StatusOnlyIff`), and a move to a given rank does so under the same condition
  (`RankedMoveIff`); the board then goes by key. Over a run, ranks are distinct all along if and only if no update and
  no move has done this (`RunRanksIff`).

## Model

| member | source | states |
|---|---|---|
| `RailReducer.ReduceRail` | packages/tui/src/rail-reducer.ts:189-448 | the reducer that updates phase objects in place computes exactly the read-out of one pure step folded over the events |
| `RailReducer.FoldEvents` | packages/tui/src/rail-reducer.ts:230-399 | the loop over the events leaves the phase objects, the start times and the counters of the folded steps |
| `RailReducer.Reducer.StartPhase` | packages/tui/src/rail-reducer.ts:242-259 | a new phase completes and times the running one before it, is appended, indexed under its id and timed from its own timestamp |
| `RailReducer.Reducer.CompletePhase` | packages/tui/src/rail-reducer.ts:260-269 | the attributed phase is completed, timed once and given its detail; no other phase changes |
| `RailReducer.Reducer.RequestApproval` | packages/tui/src/rail-reducer.ts:270-280 | the question is shown and the attributed phase waits |
| `RailReducer.Reducer.ResolveApproval` | packages/tui/src/rail-reducer.ts:281-303 | the prompt goes, a waiting phase runs again and the question with its decision stays as a line |
| `RailReducer.Reducer.Fail` | packages/tui/src/rail-reducer.ts:304-313 | the run is errored, the attributed phase failed and timed, and the message is a line |
| `RailReducer.Reducer.CompleteRun` | packages/tui/src/rail-reducer.ts:314-326 | the run is done, no approval is left and every running or waiting phase is completed and timed |
| `RailReducer.Reducer.CallModel` | packages/tui/src/rail-reducer.ts:363-382 | cost goes to the total and to the attributed phase, tokens to the totals, and what was said becomes a narration line |
| `RailReducer.Reducer.DropNarration` | packages/tui/src/rail-reducer.ts:383-393 | at most one line goes, and only a narration line at the end of the attributed phase |
| `RailReducer.Reducer.PhaseOf` | packages/tui/src/rail-reducer.ts:208-212 | looking the id up in the index finds the last phase of that id, or else the current phase |
| `RailReducer.Reducer.MarkPhases` | packages/tui/src/rail-reducer.ts:405-419 | the status pass marks in place exactly the last action of each running phase of a live run |
| `RailScrub.ScrubStable` | packages/tui/src/rail-reducer.ts:12-17 | for any streams `a` and `b` and any view options, each phase of `a` keeps position, id and name in `a + b` and its lines other than narration are only extended |
| `RailScrub.FoldInParts` | packages/tui/src/rail-reducer.ts:230-399 | folding a stream in two parts is folding it whole |
| `RailMeaning.RunIsShown` | packages/tui/src/rail-reducer.ts:189-448 | for every stream and all options, each run-level field of the model is told from the events alone: the prompt is that of the last request, unless a resolution or the end of the run came after it; status, cost, tokens, times and todos likewise |
| `RailPhases.PhasesAreShown` | packages/tui/src/rail-reducer.ts:230-419 | for every stream and all options, the phases of the model are the started ones in order, and what each shows - state, detail, lines, duration, cost - follows event by event from those that concern it |
| `RailTime.PhaseIntervalsDisjoint` | packages/tui/src/rail-reducer.ts:223-228 | the intervals the durations of timed phases were measured over follow one another without overlap inside the run, and an untimed phase has a duration only if a timed one shares its id |
| `RailTime.TimedDurationsFit` | packages/tui/src/rail-reducer.ts:425-426 | on every stream whose timestamps do not go back, the durations of timed phases add up to at most the elapsed time shown; all others belong to untimed starts |
| `RailTime.DurationsFitElapsed` | packages/tui/src/rail-reducer.ts:425-426 | the sum of all durations never exceeds the elapsed time shown unless an untimed start shares its id with a timed one, for finished runs and for live ones with a clock that is not behind |
| `RailTime.SomeEndBreaksIff` | packages/tui/src/rail-reducer.ts:314-326 | after any stream whose timestamps do not go back, some end of the run makes the durations exceed the elapsed time if and only if two clocks run, or durations and running clock exceed it already |
| `RailTime.RunningClockBreaksIff` | packages/tui/src/rail-reducer.ts:223-228 | with one running clock, if and only if the durations so far exceed the time before the start it runs from |
| `RailTime.UnparsedStartOvercounts` | packages/tui/src/rail-reducer.ts:248-257 | an untimed start that reuses a timed id breaks the bound: an example |
| `RailTime.UntimedWaitOvercounts` | packages/tui/src/rail-reducer.ts:248-257 | so does a timed start that reuses the id of an untimed phase that waits: an example |
| `RailTime.ClockBackOvercounts` | packages/tui/src/rail-reducer.ts:425-426 | so do timestamps that go back, with every start timed and every id used once: an example |
| `RailBalance.TimeBalances` | packages/tui/src/rail-reducer.ts:209-259 | on every stream in which no untimed start shares its id with a timed one, in whatever order its timestamps come, durations, running clock and the signed time outside of them add up to the time from the first timestamp to the last |
| `RailBalance.OutsidePositive` | packages/tui/src/rail-reducer.ts:209-259 | the time outside of durations is never negative as long as timestamps do not go back |
| `RailBalance.OvercountsIff` | packages/tui/src/rail-reducer.ts:425-426 | on every such stream the durations exceed the elapsed time shown if and only if there are any and the time that shows in none is negative |
| `RailCost.CostConserved` | packages/tui/src/rail-reducer.ts:363-369 | the total cost is the cost of all calls and the sum of the phases' costs plus that of calls before any phase |
| `RailStates.AtMostOneRunning` | packages/tui/src/rail-reducer.ts:242-326 | in an orderly stream every phase but the last is over and at most one line of the model runs |
| `RailStates.CompletedRunIsClosed` | packages/tui/src/rail-reducer.ts:314-326 | right after a run completes no phase runs or waits, no approval is pending and no line runs |
| `DiffParser.ParseUnifiedDiff` | packages/tui/src/diff-view.ts:52-180 | the pass with its mutable file, hunk and section state computes the fold of one step over recognised lines |
| `DiffParser.Parser.TakeLine` | packages/tui/src/diff-view.ts:91-171 | one turn of the loop does what one step does, on every kind of line |
| `DiffParser.Parser.FlushGitSection` | packages/tui/src/diff-view.ts:68-89 | a section without a content header yields one file, under the conditions for it |
| `DiffSound.EveryFileSound` | packages/tui/src/diff-view.ts:122-172 | on every text: in each hunk old and new numbers run consecutively from the header's starts, and each file's totals are the numbers of such lines in its hunks |
| `DiffSound.SectionsIndependent` | packages/tui/src/diff-view.ts:92-105 | what follows a `diff --git` line is read as if nothing came before it |
| `DiffSound.FilesOfSection` | packages/tui/src/diff-view.ts:68-142 | a section yields one file for each `+++ ` header, in order, with the paths and flags of that header, the last `--- ` line before it and the renames seen so far; or, if it has none, exactly the file of its git header, renames and binary note |
| `DiffSyntax.GitLineParsesIff` | packages/tui/src/diff-view.ts:92-104 | the paths of the header are read back by the greedy pattern if and only if no ` b/` with something behind it lies in the second one; else a shorter second path is read |
| `DiffSyntax.HunkLineParses` | packages/tui/src/diff-view.ts:144-151 | the starts printed in a hunk header are read back, with either count, both or none |
| `DiffSyntax.HunkHeaderIff` | packages/tui/src/diff-view.ts:144-151 | a line is read as a hunk header exactly when it is one, with the numbers it has |
| `DiffStat.ParseDiffStat` | packages/tui/src/diff-stat.ts:20-51 | the counting loop computes the fold of its branches |
| `DiffAgree.RoundTripIff` | packages/tui/src/diff-view.ts:52-180 | a printed diff is read back if and only if no changed line begins with `++ ` or `-- `, no file without hunks is added, is deleted or lies in a top directory `a` or `b`, and no file with neither hunks nor rename lines has a ` b/` inside its path |
| `DiffAgree.StatIsRight` | packages/tui/src/diff-stat.ts:20-51 | the counter gives the printed additions, deletions and files on every printed diff |
| `DiffAgree.ParserAndCounterAgreeIff` | packages/tui/src/diff-stat.ts:20-51 | parser and counter agree on the totals if and only if no changed line looks like a file header |
| `DiffAgree.HeaderLikeLineExists` | packages/tui/src/diff-view.ts:116-142 | a printed diff with such a line, on which parser and counter differ |
| `DiffAgree.StatusLost` | packages/tui/src/diff-view.ts:68-89 | an added or deleted file without hunks is read exactly as a changed one |
| `DiffAgree.AddedBinaryMisread` | packages/tui/src/diff-view.ts:68-89 | an added binary file, which is not read as new |
| `DiffAgree.SpacedPathMisread` | packages/tui/src/diff-view.ts:92-104 | a binary change of `a b/c.png` is read as one of `c.png` |
| `DiffPlain.PlainRoundTripIff` | packages/tui/src/diff-view.ts:116-171 | a diff without `diff --git` lines, with or without sides and times at its names, is read back if and only if no changed line begins with `++ ` or `-- `, no added or deleted file has a time at its names, and no name without a side begins with `a/` or `b/` |
| `DiffPlain.PlainStatExactly` | packages/tui/src/diff-stat.ts:20-51 | on such diffs the counter takes the headers of each file behind one with hunks for an addition and a deletion, and does not count that file |
| `DiffPlain.PlainStatIff` | packages/tui/src/diff-stat.ts:20-51 | it is right if and only if no file comes behind one with hunks |
| `DiffPlain.LateFileExists` | packages/tui/src/diff-stat.ts:20-51 | two files on which it is wrong and the parser right |
| `DiffPlain.BareStat` | packages/tui/src/diff-stat.ts:20-51 | hunks without any header count as one file, unless they change nothing |
| `DiffSpans.ComputeSpan` | packages/tui/src/diff-view.ts:214-246 | the two loops compute the longest common prefix and then the longest suffix that does not overlap it |
| `DiffSpans.NoSpanIff` | packages/tui/src/diff-view.ts:214-246 | no span is given if and only if the texts are equal or share neither their first nor their last code point |
| `DiffSpans.SpansCutCommonEnds` | packages/tui/src/diff-view.ts:214-246 | the spans cut off equal ends that cannot be longer, at code-point boundaries, in UTF-16 offsets |
| `DiffPairs.ComputeWordSpans` | packages/tui/src/diff-view.ts:187-212 | the spans are written in place into exactly the lines of the paired runs |
| `DiffPairs.PairSideBySide` | packages/tui/src/diff-view.ts:324-347 | the row loop computes the rows of each run |
| `DiffPairs.RowsAgreeWithSpans` | packages/tui/src/diff-view.ts:324-347 | left cells are the old lines, right cells the new ones, each once and in order; no row is empty; and every pair with common spans shares a row |
| `DiffPairs.RowsPairExact` | packages/tui/src/diff-view.ts:324-347 | two changed lines share a row if and only if they are at the same place of a deletion run and the addition run behind it |
| `DiffPairs.SpanPairsExact` | packages/tui/src/diff-view.ts:187-212 | two lines are compared for highlights if and only if they are at the same place of such runs |
| `DiffPairs.PairGetsSpans` | packages/tui/src/diff-view.ts:187-212 | both lines of a pair get the spans of their texts compared with each other |
| `DiffPairs.UnpairedKeepsSpan` | packages/tui/src/diff-view.ts:187-212 | a line outside all pairs keeps its span |
| `Stdio.StdioTransport.OnData` | apps/vscode/src/extension.ts:339-349 | a chunk continues the buffered line; every completed line is handed on and the tail stays in the buffer |
| `Stdio.StdioTransport.Send` | apps/vscode/src/extension.ts:363-367 | a message is written with one newline, and only to a writable stream |
| `Stdio.Receive` | apps/vscode/src/extension.ts:339-349 | however output is cut into chunks, the lines handed on and the buffer are the newline-separated pieces of all of it |
| `Stdio.MessagesArriveWhole` | apps/vscode/src/extension.ts:339-367 | messages without newlines, sent by `SendAll` and cut anywhere, arrive exactly once, whole and in order, and at any time as a prefix |
| `Stdio.SendAll` | apps/vscode/src/extension.ts:363-367 | sending messages one after the other to a writable stream writes each with its newline, in order |
| `Acp.AcpClient.Request` | apps/vscode/src/acp-client.ts:167-176 | a closed client refuses; otherwise the next id is taken, the promise waits under it and the call is written |
| `Acp.AcpClient.Receive` | apps/vscode/src/acp-client.ts:191-223 | a line is a response, a request of the agent, a notification or ignored, with the state change of each |
| `Acp.AcpClient.ResolveResponse` | apps/vscode/src/acp-client.ts:225-248 | a pending id is removed and its promise settled with the error, the result or the complaint about neither; an unknown id changes nothing |
| `Acp.AcpClient.HandleServerRequest` | apps/vscode/src/acp-client.ts:263-293 | an unknown method is answered at once, a permission request goes to the handler or is declined |
| `Acp.AcpClient.OnHandlerSettled` | apps/vscode/src/acp-client.ts:275-293 | a settled handler call is answered with its choice, or with `reject` |
| `Acp.AcpClient.OnTransportClosed` | apps/vscode/src/acp-client.ts:295-303 | every waiting promise is rejected once and nothing is pending |
| `AcpProperties.SettledByFirstAnswer` | apps/vscode/src/acp-client.ts:167-248 | each request is settled by the first response with its id or the close, whichever comes first, and by nothing else: an error object rejects with its message and code, else a result resolves, and a response with neither is complained about |
| `AcpProperties.EveryPromiseWasMade` | apps/vscode/src/acp-client.ts:167-176 | every promise belongs to a request of the client |
| `AcpProperties.AnswerStays` | apps/vscode/src/acp-client.ts:225-248 | a settled promise never changes again |
| `AcpProperties.NothingWaitsAfterClose` | apps/vscode/src/acp-client.ts:295-303 | after a close nothing is pending and no promise waits, ever |
| `AcpProperties.IdsNeverRepeat` | apps/vscode/src/acp-client.ts:107-176 | the ids on the wire are 1, 2, 3, ..., one for each accepted request |
| `AcpProperties.OneReplyPerRequest` | apps/vscode/src/acp-client.ts:263-293 | for every id, replies and undecided handler calls add up to the requests received with it; notifications get none |
| `AcpProperties.OnlyChosenOptionsSent` | apps/vscode/src/acp-client.ts:273-293 | any option but `reject` on the wire was chosen by the handler for that request |
| `AcpWire.WrittenExactly` | apps/vscode/src/acp-client.ts:167-293 | over every run, the client writes exactly what its events call for, in order: each call with its id, each notice, `method not found` for an unknown request, `reject` for a permission request that no handler takes, and one reply per decision |
| `AcpWire.ChoiceIsSent` | apps/vscode/src/acp-client.ts:273-293 | a decision about a call that is still open is sent at once, as a reply to the request that opened the call, with exactly that choice or with `reject` if there is none |
| `QueueEditor.Editor.OnLine` | apps/cli/src/ui.ts:1063-1070 | a line answers the question that waits longest, or is buffered |
| `QueueEditor.Editor.OnClose` | apps/cli/src/ui.ts:1071-1076 | every waiting question is answered with null |
| `QueueEditor.Editor.Question` | apps/cli/src/ui.ts:1078-1093 | a question takes the first buffered line, null after the close, or waits |
| `QueueEditor.QuestionsGetLines` | apps/cli/src/ui.ts:1059-1093 | the i-th question gets the i-th line, or null exactly when the input closed with fewer; lines and waiters are never both there; nothing waits after the close |
| `RawEditor.LayoutInput` | apps/cli/src/lib/raw-input.ts:168-193 | the loop finds the row and column of the cursor and counts the rows of the wrapped input |
| `RawEditor.CursorRowInside` | apps/cli/src/lib/raw-input.ts:168-193 | the cursor's row lies inside the input unless the cursor is at the end of a line that fills its last row |
| `RawEditor.RawLineEditor.Paint` | apps/cli/src/ui.ts:1195-1323 | a paint steps up, erases, draws header, input and footer, parks the cursor and records the rows |
| `RawEditor.RawLineEditor.CloseFrame` | apps/cli/src/ui.ts:1330-1338 | the cursor drops below the input and the footer is erased |
| `RawEditor.RawLineEditor.CloseFrameCommit` | apps/cli/src/ui.ts:1347-1365 | a framed submit wipes the box and writes the message; others close the frame |
| `RawEditor.RawLineEditor.DisableRaw` | apps/cli/src/ui.ts:1557-1573 | a suspend wipes from the box top on |
| `RawEditorProperties.PaintKeepsTopIff` | apps/cli/src/ui.ts:1295-1323 | `prevCursorRow` is the cursor's distance from the box top if and only if the frame does not overhang; else it is one too many |
| `RawEditorProperties.PaintIsFresh` | apps/cli/src/ui.ts:1195-1323 | after every paint the screen is what was above the box and the frame as painted from scratch |
| `RawEditorProperties.OverhangEatsARow` | apps/cli/src/ui.ts:1295-1323 | a paint after an overhanging one erases the row above the box |
| `RawEditorProperties.OverhangExists` | apps/cli/src/ui.ts:1295-1323 | an overhanging frame: input up to the right edge and no footer |
| `RawEditorProperties.SessionSparesScrollback` | apps/cli/src/ui.ts:1195-1365 | over every sequence of paints, submits, suspends and output, at most one row above the box is touched for each overhanging paint, and none without one |
| `RawEditorProperties.OverhangClimbs` | apps/cli/src/ui.ts:1295-1323 | that many are: an overhanging frame painted n times more has erased n rows |
| `RawEditorProperties.CloseKeepsInputIff` | apps/cli/src/ui.ts:1330-1338 | the cursor ends right below the input if and only if the input does not fill its last row under the cursor |
| `RawEditorProperties.SubmitLeavesOnlyTheMessage` | apps/cli/src/ui.ts:1347-1365 | a framed submit leaves what was above and the wrapped message, and the cursor below it |
| `RawEditorProperties.EmptySubmitLeavesNothing` | apps/cli/src/ui.ts:1347-1365 | an empty submit leaves nothing of the box |
| `RawEditorCursor.PaintParksCursor` | apps/cli/src/ui.ts:1295-1323 | a paint that does not overhang leaves the cursor at the very cell where the terminal would write the next character after printing the frame up to the cursor |
| `RawEditorCursor.BeforeIsPrefix` | apps/cli/src/lib/raw-input.ts:168-193 | the text up to the cursor is the first characters of the input, as many as the cursor says |
| `RawEditorCursor.SuspendLeavesNothing` | apps/cli/src/ui.ts:1557-1573 | a suspend after a paint leaves nothing of the box and the cursor where it began |
| `RawEditorCursor.AskStartsAtCursor` | apps/cli/src/ui.ts:1604-1642 | a new read keeps everything above the row of the cursor |
| `RawEditorCursor.PlainSubmitKeepsInput` | apps/cli/src/ui.ts:1330-1365 | a submit from a sub-prompt or from a box without a header keeps what was painted and goes below the input |
| `Templates.ExtractTemplateVariables` | packages/declarative-schemas/src/schemas.ts:23-32 | the loop collects the placeholder names that are not collected yet |
| `Templates.VariablesInOrder` | packages/declarative-schemas/src/schemas.ts:19-32 | the variables are the distinct placeholder names in the order in which they first appear |
| `Templates.PlaceholdersFound` | packages/declarative-schemas/src/schemas.ts:15-32 | in a text put together from brace-free text and padded placeholders, exactly those placeholders are found |
| `TemplateForms.MatchIff` | packages/declarative-schemas/src/schemas.ts:15-16 | the pattern matches exactly two braces, a name with space around it or none, and two braces |
| `TemplateForms.MatchesExactly` | packages/declarative-schemas/src/schemas.ts:15-32 | on every text, the names found are those of its leftmost placeholders; none is missed |
| `Definitions.DuplicateIds` | packages/workflow-schema/src/schema.ts:166-181 | the loop with its `seen` set reports exactly the phases whose id occurred before, and none if and only if ids are distinct |
| `Definitions.ParseWorkflow` | packages/workflow-schema/src/schema.ts:109-187 | phases are checked and normalized one by one, then ids, then the default levels are filled in |
| `Definitions.NormalizedPhase` | packages/workflow-schema/src/schema.ts:95-121 | a phase is required unless it says otherwise in either way; normalizing fills both defaults and fixes exactly the complete phases |
| `Definitions.ArtifactVariables` | packages/declarative-schemas/src/schemas.ts:90-99 | the variables are the placeholders in order of appearance, then the other declared ones |
| `Definitions.ParsedStays` | packages/workflow-schema/src/schema.ts:165-187 | for every kind, parsing an already parsed definition succeeds and changes nothing |
| `Definitions.FixedIff` | packages/workflow-schema/src/schema.ts:95-274 | parsing leaves an accepted definition alone if and only if all its defaults are filled in |
| `Definitions.FileStays` | packages/declarative-schemas/src/parse.ts:91-121 | what a file parses to has a type, the implied one if there is one, and parses to itself |
| `DefinitionForms.WorkflowExactly` | packages/workflow-schema/src/schema.ts:95-187 | a workflow is accepted if and only if it is shaped, named, of its type and has named phases with distinct ids that do not contradict themselves; field by field, what it becomes |
| `DefinitionForms.MethodologyExactly` | packages/workflow-schema/src/schema.ts:233-274 | so for methodologies, by default delivery at a medium risk |
| `DefinitionForms.ArtifactExactly` | packages/declarative-schemas/src/schemas.ts:80-99 | so for artifact templates and their variables |
| `DefinitionForms.PlainExactly` | packages/declarative-schemas/src/schemas.ts:34-75 | a definition of another kind is copied if it is framed |
| `DefinitionForms.FileExactly` | packages/declarative-schemas/src/parse.ts:91-121 | a file is read as the kind its place implies unless it names another one; without an implied kind it has to name its own |
| `Contributions.ContributionRegistry.Register` | packages/extension-runtime/src/contributions.ts:85-117 | stored, overriding, or ignored with the warning for the reason, on nested maps |
| `Contributions.ContributionRegistry.Get` | packages/extension-runtime/src/contributions.ts:119-121 | the entry of a kind and id |
| `Contributions.EntryIsWinner` | packages/extension-runtime/src/contributions.ts:69-117 | after any calls, the entry is the first valid contribution of the highest-ranked source that has one |
| `Contributions.InterleavingIrrelevant` | packages/extension-runtime/src/contributions.ts:48-117 | any interleaving that keeps each source's own order gives the same table |
| `Contributions.CallsAccounted` | packages/extension-runtime/src/contributions.ts:85-117 | calls are entries plus overrides plus warnings |
| `Contributions.WarningsExactly` | packages/extension-runtime/src/contributions.ts:85-117 | after any calls, the warnings are exactly the notes and those due to rejected, late and outranked contributions, in order, with their owners and sources |
| `Contributions.AcceptedExactly` | packages/extension-runtime/src/contributions.ts:163-186 | rejected is exactly a declarative contribution whose definition does not parse |
| `Contributions.EntriesParsed` | packages/extension-runtime/src/contributions.ts:138-152 | every stored definition is one that parsing accepts and leaves alone, under its own key |
| `Contributions.ParsedContributionStays` | packages/extension-runtime/src/contributions.ts:167-184 | registering a parsed definition keeps it unchanged |
| `LoaderRun.LoadExtensions` | packages/extension-runtime/src/loader.ts:127-161 | the whole load makes the registry calls of settings, built-ins, project files and local extensions, in this order |
| `LoaderRun.LoadBuiltIns` | packages/extension-runtime/src/loader.ts:165-192 | enabled packs only, with forced source and owner |
| `LoaderRun.LoadProjectDeclaratives` | packages/extension-runtime/src/loader.ts:196-288 | the files of the ten directories and the declared ones, each once, unless the project is disabled |
| `LoaderRun.LoadLocalExtension` | packages/extension-runtime/src/loader.ts:337-464 | disabled and blocked manifests register nothing; the status says what went wrong |
| `LoaderRun.LoadLocalExtensions` | packages/extension-runtime/src/loader.ts:292-335 | every configured or present extension directory once, in order |
| `LoaderProperties.EveryEntryAdmitted` | packages/extension-runtime/src/loader.ts:165-464 | every entry belongs to a present extension that is neither disabled nor blocked and may use its source |
| `LoaderProperties.ProjectBeatsBuiltIn` | packages/extension-runtime/src/loader.ts:165-464 | no accepted contribution of source `project`, from a project file or a declarative manifest, is hidden by a built-in |
| `LoaderProperties.FileBeatsBuiltIn` | packages/extension-runtime/src/loader.ts:265-288 | a project file that loads is such a contribution |
| `LoaderProperties.ListedBeatsBuiltIn` | packages/extension-runtime/src/loader.ts:388-419 | so is a file that loads and that an active declarative manifest lists; one that another manifest lists is hidden by neither a built-in nor the project |
| `LoaderProperties.BuiltInsMayComeLast` | packages/extension-runtime/src/loader.ts:150-158 | loading the built-in packs last gives the same table |
| `LoaderProperties.CandidatesDistinct` | packages/extension-runtime/src/loader.ts:207-216 | no project file is loaded twice |
| `LoaderProperties.CandidatesExactly` | packages/extension-runtime/src/loader.ts:218-247 | the project files are exactly the definition files of the directories and the declared files that exist |
| `LoaderTable.TableExactly` | packages/extension-runtime/src/loader.ts:127-464 | after a load every entry is the first accepted offer of the extensions with code, or else of the project files and the extensions without code, or else of the enabled packs, read off the input; a key nobody offers has none |
| `LoaderTable.BuiltInsAreThere` | packages/extension-runtime/src/loader.ts:165-192 | every acceptable contribution of an enabled pack has an entry |
| `LoaderTable.BuiltInIsEntry` | packages/extension-runtime/src/loader.ts:165-192 | the first one for a key, in pack order, is the entry as a built-in of its pack, unless a project or local extension offers the key |
| `LoaderTable.NamesAreThere` | packages/extension-runtime/src/loader.ts:410-450 | so is every name of an active extension whose code loads, as an entry of an extension with code |
| `LoaderFiles.CandidatesInOrder` | packages/extension-runtime/src/loader.ts:207-247 | the project files are loaded in the order of their first mentions, each as what that mention says |
| `LoaderFiles.DeclaredKindIff` | packages/extension-runtime/src/loader.ts:481-494 | a declared file is of the kind of the closest directory around it that is named after one |
| `LoaderFiles.TakesForms` | packages/extension-runtime/src/loader.ts:218-235 | which file names of a directory are definitions |
| `LoaderFiles.DirsInOrder` | packages/extension-runtime/src/loader.ts:292-329 | the extensions are loaded in the order of their first mentions, the configured ones where their manifest is |
| `LoaderWarnings.NotesExactly` | packages/extension-runtime/src/loader.ts:127-464 | what a load notes, exactly: broken settings, ids enabled and disabled, permissions, missing and unloadable files, blocked extensions and ids that differ |
| `LoaderWarnings.StatusExactly` | packages/extension-runtime/src/loader.ts:337-464 | how an extension ends: skipped, refused, loaded with every listed file and its code, or broken |
| `Lanes.LaneOfName` | packages/work-items/src/lanes.ts:23-55 | the canonical value of a lane is in that lane |
| `LaneNames.CalledIff` | packages/work-items/src/lanes.ts:23-55 | a normalized status is in a lane exactly if it is one of the names of the lane; only the lane to do takes any other status |
| `LaneNames.WrittenLane` | packages/work-items/src/lanes.ts:23-55 | space around a status, the case of its letters and what separates its words do not matter |
| `WorkItems.LocalWorkItemProvider.NextKey` | packages/work-items/src/local-provider.ts:138-149 | the loop finds one more than the largest number in any file name |
| `WorkItems.LocalWorkItemProvider.NextOrder` | packages/work-items/src/local-provider.ts:202-207 | one more than the largest rank of the lane, 0 when it is empty |
| `WorkItems.LocalWorkItemProvider.CreateWorkItem` | packages/work-items/src/local-provider.ts:152-188 | a new item under the next key at the end of its lane |
| `WorkItems.LocalWorkItemProvider.MoveWorkItem` | packages/work-items/src/local-provider.ts:239-246 | the item gets the lane and the given or next rank; invalid, missing and corrupt keys fail without a change |
| `WorkItems.LocalWorkItemProvider.UpdateWorkItem` | packages/work-items/src/local-provider.ts:210-226 | exactly the given fields change, each to the given value, an assignee to the user of that name |
| `WorkItems.LocalWorkItemProvider.UpdateStatus` | packages/work-items/src/local-provider.ts:344-352 | only the status changes; the rank stays what it was in the old lane |
| `WorkItems.LocalWorkItemProvider.DeleteWorkItem` | packages/work-items/src/local-provider.ts:229-236 | the file goes; the result says whether it was there |
| `WorkItems.LocalWorkItemProvider.Mutate` | packages/work-items/src/local-provider.ts:256-276 | adding numbers the entry, toggling and removing touch the first entry of the id |
| `WorkItems.LocalWorkItemProvider.MutateChecklist` | packages/work-items/src/local-provider.ts:248-279 | the item is written back with the changed list; invalid, missing and corrupt keys fail without a change |
| `WorkItems.LocalWorkItemProvider.Board` | packages/work-items/src/local-provider.ts:282-290 | the five lanes, each filtered and sorted |
| `WorkItemBoard.BoardLaneSorted` | packages/work-items/src/local-provider.ts:282-290 | for any directory, a lane holds its items as often as they are stored, sorted by rank and key |
| `WorkItemBoard.BoardPartition` | packages/work-items/src/local-provider.ts:282-290 | the lanes together are a permutation of all readable items |
| `WorkItemBoard.ReadAllSorted` | packages/work-items/src/local-provider.ts:111-131 | the list is newest first and a permutation of the readable items |
| `WorkItemRuns.DeletedKeyReturns` | packages/work-items/src/local-provider.ts:138-236 | deleting an item right after its creation restores the directory |
| `WorkItemRuns.DeleteFreesIff` | packages/work-items/src/local-provider.ts:138-236 | in a tidy store, the next number after a delete is at most the deleted one if and only if no file had a larger number |
| `WorkItemRuns.KeyReusedIff` | packages/work-items/src/local-provider.ts:138-279 | over every run, a create gives out a key for the second time if and only if the file of the largest number given out so far is gone |
| `WorkItemRuns.RunsStayTidy` | packages/work-items/src/local-provider.ts:152-279 | over every run from the empty store, keys are unique, numbers distinct and each file holds the item of its name |
| `WorkItemRuns.RunsKeepRanksDistinct` | packages/work-items/src/local-provider.ts:152-279 | over runs without given ranks or statuses, ranks inside a lane are pairwise distinct |
| `WorkItemRuns.RankedMoveIff` | packages/work-items/src/local-provider.ts:239-246 | a move to a given rank keeps ranks distinct if and only if no other item of the lane has it |
| `WorkItemRuns.StatusOnlyIff` | packages/work-items/src/local-provider.ts:344-352 | a status update keeps ranks distinct if and only if no other item of the new lane has the old rank |
| `WorkItemRuns.UpdateRanksIff` | packages/work-items/src/local-provider.ts:210-226 | so does any update, for the lane and the rank the item has afterwards |
| `WorkItemRuns.RunRanksIff` | packages/work-items/src/local-provider.ts:152-352 | over every run, ranks inside a lane have been distinct all along if and only if no move and no update has hit a taken rank |
| `WorkItemRuns.ClashExists` | packages/work-items/src/local-provider.ts:239-352 | a tidy store in which a ranked move and a status update hit one |
| `WorkItemMoves.BoardIsView` | packages/work-items/src/local-provider.ts:282-290 | in a tidy store a lane is its items by rank and key, however the directory is listed |
| `WorkItemMoves.CreatedLast` | packages/work-items/src/local-provider.ts:152-188 | a created item is last in its lane and nothing else on the board changes |
| `WorkItemMoves.MovedLast` | packages/work-items/src/local-provider.ts:239-246 | a moved item leaves its lane and is last in the target lane; all others keep their order |
| `WorkItemMoves.DeletedGone` | packages/work-items/src/local-provider.ts:229-236 | a deleted item leaves its lane; all others keep their order |
| `WorkItemMoves.CheckIdsStayDistinct` | packages/work-items/src/local-provider.ts:256-269 | distinct checklist ids stay distinct under every operation |
| `WorkItemMoves.RemoveUndoesAdd` | packages/work-items/src/local-provider.ts:256-276 | removing an added entry restores the checklist |
| `WorkItemMoves.ToggleTwice` | packages/work-items/src/local-provider.ts:270-273 | toggling twice restores the checklist |
| `WorkItemEffects.ReadExactly` | packages/work-items/src/local-provider.ts:101-200 | reading fails exactly for what is no key, for a missing file and for one that does not decode |
| `WorkItemEffects.CreatedReads` | packages/work-items/src/local-provider.ts:152-188 | a created item reads back as given, open unless a status is given; no other item changes |
| `WorkItemEffects.MovedReads` | packages/work-items/src/local-provider.ts:239-246 | a moved item reads back in its lane with the given or next rank, and else as before; no other item changes |
| `WorkItemEffects.UpdatedReads` | packages/work-items/src/local-provider.ts:210-226 | an updated item reads back with every given field and else as before; no other item changes |
| `WorkItemEffects.CheckedReads` | packages/work-items/src/local-provider.ts:248-279 | a checklist change reads back in its item alone |
| `WorkItemEffects.DeletedReads` | packages/work-items/src/local-provider.ts:229-236 | a deleted key names nothing, and no other item changes |
| `WorkItemEffects.ToggleFlips` | packages/work-items/src/local-provider.ts:270-273 | toggling flips the first entry of the id and nothing else |
| `WorkItemEffects.RemoveTakes` | packages/work-items/src/local-provider.ts:274-276 | removing takes out the first entry of the id and nothing else |
| `WorkItemEffects.AddAppends` | packages/work-items/src/local-provider.ts:256-269 | adding puts the trimmed text behind the others, not done and with an id of its own |
| `WorkItemEffects.LaneOrder` | packages/work-items/src/local-provider.ts:282-290 | a lane goes by rank, 0 for an item without one, and then by the number of the key |
| `WorkItemEffects.ListedIff` | packages/work-items/src/local-provider.ts:111-131 | the list holds exactly the items in readable files whose names end in `.json` |
| `WorkItemEffects.BoardIff` | packages/work-items/src/local-provider.ts:282-290 | a lane holds exactly those of them whose status is in the lane |
| `Commands.FindFirstMention` | packages/work-items/src/commands.ts:84-96 | the search with its jumps over near misses finds the same mention as trying every position |
| `CommandProperties.FindIsFirst` | packages/work-items/src/commands.ts:84-96 | it is the first position that is not inside a word and is followed by a space, a colon, a comma or nothing |
| `Commands.ParseArguments` | packages/work-items/src/commands.ts:178-200 | the index loop fills arguments and flags with the roles of the tokens |
| `Commands.ParseExcaliburCommand` | packages/work-items/src/commands.ts:119-209 | no mention, each error, or the command with its subcommand, arguments and flags |
| `CommandProperties.RolesAreTokens` | packages/work-items/src/commands.ts:178-200 | every token is in exactly one of argument, flag name and flag value: written out again, the roles are the tokens; which of them it is, `RoundTripIff` says |
| `CommandProperties.LaterLinesIrrelevant` | packages/work-items/src/commands.ts:125-129 | text after the mention's line never changes the result |
| `CommandProperties.ParsedHasAction` | packages/work-items/src/commands.ts:216-267 | every parsed command is known, has a fitting subcommand and maps to an action |
| `CommandRoundTrip.RoundTripIff` | packages/work-items/src/commands.ts:119-209 | a command in any accepted spelling - mention and names in any case, marks behind them, any space, flags as `--name=value`, `--name value` or `--name` among the arguments - is parsed as what it says, behind any text that holds no mention and ends in no word character and in front of any lines, if and only if no flag is called `__proto__` |
| `CommandRoundTrip.LostFlagExists` | packages/work-items/src/commands.ts:178-200 | a written command that is not parsed back |
| `CommandRoundTrip.MeantExactly` | packages/work-items/src/commands.ts:178-200 | the flags meant are those of the command, each with the value of the last flag of its name |
| `CommandOutcomes.CommentRead` | packages/work-items/src/commands.ts:119-134 | what a comment says is read from the words on the line of its mention, wherever the mention stands |
| `CommandOutcomes.RefusedExactly` | packages/work-items/src/commands.ts:136-176 | which words are refused with which error: no command, an unknown one, planning without a subcommand or with an unknown one |
| `CommandOutcomes.TalkActions` | packages/work-items/src/commands.ts:216-228 | which commands start an interaction or a patch, and which one |
| `CommandOutcomes.RunActions` | packages/work-items/src/commands.ts:229-240 | which start a run, at which level and in which style, or ask about one |
| `CommandOutcomes.PlanningActions` | packages/work-items/src/commands.ts:241-249 | planning acts by its subcommand and fails without one |
| `CommandOutcomes.DiscoveryActions` | packages/work-items/src/commands.ts:250-255 | discovery hands on the subcommand it may have |
| `CommandOutcomes.DiscoverySteps` | packages/work-items/src/commands.ts:256-259 | three commands are discovery steps of their own name |
| `Highlight.HighlightCode` | packages/tui/src/markdown.ts:131-184 | the scanning loop ends and computes the spans of the tokens from left to right |
| `Highlight.HighlightLossless` | packages/tui/src/markdown.ts:131-184 | the spans join to the line, and none is empty unless the line is |
| `Highlight.SpansFit` | packages/tui/src/markdown.ts:131-184 | every span has the class its text calls for; only the last can be a comment |
| `HighlightTokens.HighlightExactly` | packages/tui/src/markdown.ts:131-184 | a highlighted line is exactly its tokens, each as long as it can be and in its class: comments, strings with their escapes, numbers, words, and what stands between them |
| `HighlightTokens.CommentShown` | packages/tui/src/markdown.ts:118-120 | in ten languages a line that starts with `#` is one comment |
| `HighlightTokens.SlashCommentShown` | packages/tui/src/markdown.ts:118-120 | in all others a line that starts with two slashes is |
| `Inline.FindSpans` | packages/tui/src/markdown.ts:50-73 | the loop over the matches computes plain and styled spans |
| `Inline.InlineLossless` | packages/tui/src/markdown.ts:50-73 | the spans with their markers put back are the text |
| `Inline.InlineFits` | packages/tui/src/markdown.ts:50-73 | styled spans never contain their marker, none is empty and no two plain ones touch |
| `Inline.NoMarkersPlain` | packages/tui/src/markdown.ts:49-73 | a text without markers is one plain span |
| `InlineRuns.HitIff` | packages/tui/src/markdown.ts:49-73 | a run is found at a position if and only if one of the three forms stands there |
| `InlineRuns.InlineExactly` | packages/tui/src/markdown.ts:49-73 | the spans are the leftmost runs and the plain text between them; no run is missed |
| `Markdown.ParseMarkdown` | packages/tui/src/markdown.ts:191-256 | the loop with its fence state and the trimming of blanks |
| `Markdown.StreamingStable` | packages/tui/src/markdown.ts:186-256 | for all `a` and `b`, the parse of `a` is a prefix of the parse of `a`, newline, `b`, even inside an open fence |
| `MarkdownForms.StyledExactly` | packages/tui/src/markdown.ts:75-79 | which lines outside fences are blank, headings, quotes, numbered entries, bullets and prose, and what is shown of each |
| `MarkdownForms.FenceLineIff` | packages/tui/src/markdown.ts:75-79 | which lines are fences, and of which language |
| `MarkdownForms.StateExactly` | packages/tui/src/markdown.ts:186-201 | a line is inside a fence exactly behind an odd number of fence lines, in the language of the last one |
| `MarkdownForms.ParsedExactly` | packages/tui/src/markdown.ts:191-256 | a text shows its lines outside fences styled and those inside as code, no fence lines, and no blank lines at either end |
| `Markdown.StyledKeepsText` | packages/tui/src/markdown.ts:219-247 | outside fences a line ends with its spans' text, markers put back; prose is all of it |
| `Markdown.FencedKeepsText` | packages/tui/src/markdown.ts:202-218 | inside a fence the spans join to the line |

## Left out

- RailTime.DurationsFitElapsed: requires that timestamps do not go back, because the bound can fail otherwise (`RailBalance.OvercountsIff` says when), and that no untimed phase start shares its id with a timed one; what happens then is stated by `TimedDurationsFit` and `SomeEndBreaksIff`.
- RailBalance.OvercountsIff: speaks about streams in which no untimed start shares its id with a timed one; if ids are shared and timestamps go back at once, only examples are given.
- RailStates.AtMostOneRunning: requires a stream in which no event names an earlier phase and no phase starts while the last one waits; other streams can leave earlier phases open.
- WorkItemMoves.CreatedLast: speaks about tidy stores, which every run from the empty store produces; directories filled by hand can hold two keys of one number, which the board orders by the listing.
- CommandRoundTrip.RoundTripIff: the name of a flag printed as `--name=value` holds no `=`, and an argument does not stand right behind a bare flag, whose value it would be.
- DiffPlain.PlainRoundTripIff: as for `DiffAgree.RoundTripIff`; besides, no file is called `/dev/null`.
- DiffAgree.RoundTripIff: printed paths hold no tab and no line terminator and do not begin or end with white space; `git` quotes some of those and other paths, and quoted paths are not modelled.
- The texts of rail lines (`describeToolCall`, `railEventFor`, `clip`, the translator) and `stripReasoning`: an event carries the line it gives, if any.
- A phase object of the rail reducer holds one record that is replaced whenever one of its fields is assigned, and an open diff file is the last one of the list.
- Rendering of diffs and markdown: colours, gutters, padding and wrapping.
- The callbacks `onUpdate` and `onLog` of the ACP client, `dispose`, and JSON encoding: a line arrives decoded, or as one that does not decode.
- The raw editor's key reducer, its completion menu, colours, wide glyphs, terminal resizes and failing writes: a frame's header, input and footer are given as lines, every character takes one cell, and the terminal never scrolls.
- Validation by the schema library of the fields that no rule of the repository mentions: one bit of a definition says whether they have the right shape.
- The order in which the registry lists its entries, the wording of warnings, hooks, and the list of loaded extensions except for the status of local ones.
- Reading directories, YAML, Markdown front matter, manifests, policies and entrypoints: their results are inputs of a load. npm and enterprise extensions are not loaded by the program either.
- Comments, links, search and paging of work items, their ids besides the key, and the JSON of an item.
- Numbers beyond 2^53 in keys, ids and hunk headers, and non-ASCII lower-casing except where it can give an ASCII letter.
- Everything else in the repository: HTTP, credentials, process and window handling, configuration, catalogs and the engine.
