/**
 The reducer as the program runs it (packages/tui/src/rail-reducer.ts:189-448): phase objects
 updated in place, an index from phase ids to phase objects, and a final pass that marks lines.
 Every method is proved to have exactly the effect its counterpart in RailFold describes.
 */
module RailReducer {
  import opened Wrappers
  import opened RailTypes
  import opened RailFold

  /** A phase object: its id never changes, the rest of the record is updated in place. */
  class PhaseCell {
    const id: string
    ghost const position: nat
    var phase: Phase

    constructor (phase: Phase, ghost position: nat)
      ensures this.id == phase.id && this.phase == phase && this.position == position
    {
      this.id, this.phase, this.position := phase.id, phase, position;
    }
  }

  /** The index the reducer builds: each id leads to the phase that was opened last under it. */
  ghost function IndexOf(cells: seq<PhaseCell>): map<string, PhaseCell> {
    if cells == [] then map[]
    else IndexOf(cells[..|cells| - 1])[cells[|cells| - 1].id := cells[|cells| - 1]]
  }

  /** Looking an id up in the index finds the phase that searching for it finds. */
  lemma {:induction false} IndexFinds(cells: seq<PhaseCell>, ids: seq<string>, id: string)
    requires |ids| == |cells| && forall i :: 0 <= i < |cells| ==> cells[i].id == ids[i]
    ensures id in IndexOf(cells) <==> LastIndexOf(ids, id).Some?
    ensures id in IndexOf(cells) ==> IndexOf(cells)[id] == cells[LastIndexOf(ids, id).value]
  {
    if cells != [] {
      IndexFinds(cells[..|cells| - 1], ids[..|cells| - 1], id);
    }
  }

  class Reducer {
    var phases: seq<PhaseCell>
    var phaseById: map<string, PhaseCell>
    var phaseStartMs: map<string, int>
    var run: Run
    ghost var view: seq<Phase>  // the phases as values

    /** No two phases share an object, and the index leads each id to its latest phase. */
    ghost predicate Valid()
      reads this, phases
    {
      && |view| == |phases|
      && (forall i :: 0 <= i < |phases| ==> phases[i].position == i)
      && (forall i :: 0 <= i < |phases| ==> phases[i].phase == view[i] && phases[i].id == view[i].id)
      && phaseById == IndexOf(phases)
    }

    ghost function Model(): Rail
      reads this
    {
      Rail(view, phaseStartMs, run)
    }

    /** `ph` is the phase object at position `at`, or null for no position. */
    ghost predicate IsAt(ph: PhaseCell?, at: Option<nat>)
      reads this`phases
    {
      match at
      case None => ph == null
      case Some(k) => k < |phases| && ph == phases[k]
    }

    constructor ()
      ensures Valid() && Model() == EMPTY && phases == []
    {
      phases, phaseById, phaseStartMs, run := [], map[], map[], IDLE;
      view := [];
    }

    /** The phase object an event is attributed to, found through the index. */
    method PhaseOf(id: Option<string>) returns (ph: PhaseCell?, ghost at: Option<nat>)
      requires Valid()
      ensures at == PhaseFor(view, id) && IsAt(ph, at)
    {
      var current: PhaseCell? := if phases == [] then null else phases[|phases| - 1];
      ph := current;
      if id.Some? {
        IndexFinds(phases, Ids(view), id.value);
        if id.value in phaseById {
          ph := phaseById[id.value];
        }
      }
      at := PhaseFor(view, id);
    }

    /** Appends a line to a phase, stamping it with the current event's time. */
    method PushEvent(ph: PhaseCell?, line: RailLine)
      modifies ph
      ensures ph != null ==> ph.phase == WithLine(old(ph.phase), line, run.lastTs)
    {
      if ph == null { return; }
      var ev := line;
      if ev.startedAtMs == None && run.lastTs != None {
        ev := ev.(startedAtMs := run.lastTs);
      }
      ph.phase := ph.phase.(events := ph.phase.events + [ev]);
    }

    method SetDuration(ph: PhaseCell)
      modifies ph
      ensures ph.phase == WithDuration(old(ph.phase), phaseStartMs, run.lastTs)
    {
      if ph.phase.id in phaseStartMs && run.lastTs.Some? && ph.phase.durationMs.None? {
        var d := run.lastTs.value - phaseStartMs[ph.phase.id];
        ph.phase := ph.phase.(durationMs := Some(if d > 0 then d else 0));
      }
    }

    /** Brings the view up to date after one phase object was updated in place. */
    ghost method Refresh(k: nat)
      requires k < |phases| == |view|
      requires forall i :: 0 <= i < |phases| ==> phases[i].position == i
      requires forall i :: 0 <= i < |phases| && i != k ==> phases[i].phase == view[i]
      requires phases[k].phase.id == view[k].id
      requires forall i :: 0 <= i < |phases| ==> phases[i].id == view[i].id
      requires phaseById == IndexOf(phases)
      modifies this`view
      ensures Valid() && view == old(view)[k := phases[k].phase]
    {
      view := view[k := phases[k].phase];
    }

    method RollOver()
      requires Valid()
      modifies this`view, phases
      ensures Valid() && Model() == RailFold.RollOver(old(Model()))
    {
      var n := |phases|;
      if n > 0 {
        var prev := phases[n - 1];
        if prev.phase.state == Running {
          prev.phase := prev.phase.(state := Completed);
        }
        SetDuration(prev);
        Refresh(n - 1);
      }
    }

    /** Appends a new phase object and points the index at it. */
    method Open(id: string, name: string, detail: string)
      requires Valid()
      modifies this`phases, this`phaseById, this`view
      ensures Valid() && Model() == old(Model()).(phases := old(view) + [Opened(id, name, detail)])
      ensures exists p :: fresh(p) && phases == old(phases) + [p]
    {
      var phase := new PhaseCell(Phase(id, OrElse(name, id), Running, None, [], None, None), |phases|);
      if detail != "" {
        phase.phase := phase.phase.(detail := Some(detail));
      }
      assert (phases + [phase])[..|phases|] == phases;
      phases := phases + [phase];
      phaseById := phaseById[id := phase];
      view := view + [phase.phase];
    }

    method StartPhase(e: Event)
      requires Valid() && e.body.PhaseStarted?
      modifies this`phases, this`phaseById, this`phaseStartMs, this`view, phases
      ensures Valid() && Model() == RailFold.StartPhase(old(Model()), e)
      ensures forall p :: p in phases ==> p in old(phases) || fresh(p)
    {
      var id := NewPhaseId(e, |phases|);
      RollOver();
      Open(id, e.body.name, e.body.detail);
      if e.ts.Some? {
        phaseStartMs := phaseStartMs[id := e.ts.value];
      }
    }

    method CompletePhase(ph: PhaseCell?, ghost at: Option<nat>, detail: string)
      requires Valid() && IsAt(ph, at)
      modifies this`view, phases
      ensures Valid() && Model() == RailFold.CompletePhase(old(Model()), at, detail)
    {
      if ph != null {
        ph.phase := ph.phase.(state := Completed);
        SetDuration(ph);
        if detail != "" {
          ph.phase := ph.phase.(detail := Some(detail));
        }
        Refresh(at.value);
      }
    }

    method RequestApproval(ph: PhaseCell?, ghost at: Option<nat>, question: string)
      requires Valid() && IsAt(ph, at)
      modifies this`run, this`view, phases
      ensures Valid() && Model() == RailFold.RequestApproval(old(Model()), at, question)
    {
      run := run.(approval := Some(ApprovalPrompt(question, "[y/N/always]")));
      if ph != null {
        ph.phase := ph.phase.(state := Waiting);
        Refresh(at.value);
      }
    }

    method ResolveApproval(ph: PhaseCell?, ghost at: Option<nat>, e: Event)
      requires Valid() && IsAt(ph, at) && e.body.ApprovalResolved?
      modifies this`run, this`view, phases
      ensures Valid() && Model() == RailFold.ResolveApproval(old(Model()), at, e)
    {
      run := run.(approval := None);
      if ph != null && ph.phase.state == Waiting {
        ph.phase := ph.phase.(state := Running);
      }
      var question := OrElse(e.body.message, e.body.question);
      if question != "" {
        PushEvent(ph, DecisionLine(question, e.body.decision, e.body.approved));
      }
      if ph != null {
        Refresh(at.value);
      }
    }

    method Fail(ph: PhaseCell?, ghost at: Option<nat>, message: string)
      requires Valid() && IsAt(ph, at)
      modifies this`run, this`view, phases
      ensures Valid() && Model() == RailFold.Fail(old(Model()), at, message)
    {
      run := run.(errored := true);
      if ph != null {
        ph.phase := ph.phase.(state := Failed);
        SetDuration(ph);
      }
      PushEvent(ph, Line(OrElse(message, "error"), Warn, None));
      if ph != null {
        Refresh(at.value);
      }
    }

    method FinishPhase(ph: PhaseCell)
      modifies ph
      ensures ph.phase == Finished(old(ph.phase), phaseStartMs, run.lastTs)
    {
      if ph.phase.state == Running || ph.phase.state == Waiting {
        ph.phase := ph.phase.(state := Completed);
        SetDuration(ph);
      }
    }

    method CompleteRun()
      requires Valid()
      modifies this`run, this`view, phases
      ensures Valid() && Model() == RailFold.CompleteRun(old(Model()))
    {
      run := run.(done := true);
      run := run.(approval := None);
      FinishPhases();
      view := FinishedAll(view, phaseStartMs, run.lastTs);
    }

    method FinishPhases()
      requires Valid()
      modifies phases
      ensures forall j :: 0 <= j < |phases| ==> phases[j].phase == Finished(view[j], phaseStartMs, run.lastTs)
    {
      var i := 0;
      while i < |phases|
        invariant 0 <= i <= |phases| == |view|
        invariant forall j :: 0 <= j < i ==> phases[j].phase == Finished(view[j], phaseStartMs, run.lastTs)
        invariant forall j :: i <= j < |phases| ==> phases[j].phase == view[j]
      {
        FinishPhase(phases[i]);
        i := i + 1;
      }
    }

    /** Appends a line to the phase the event is attributed to. */
    method PushFor(ph: PhaseCell?, ghost at: Option<nat>, line: RailLine)
      requires Valid() && IsAt(ph, at)
      modifies this`view, phases
      ensures Valid() && Model() == PushAt(old(Model()), at, line)
    {
      PushEvent(ph, line);
      if ph != null {
        Refresh(at.value);
      }
    }

    method AddCost(ph: PhaseCell?, ghost at: Option<nat>, cents: real)
      requires Valid() && IsAt(ph, at)
      modifies this`run, this`view, phases
      ensures Valid() && Model() == RailFold.AddCost(old(Model()), at, cents)
    {
      run := run.(costCents := run.costCents + cents);
      if ph != null {
        ph.phase := ph.phase.(costCents := Some(ph.phase.costCents.GetOr(0.0) + cents));
        Refresh(at.value);
      }
    }

    method CountTokens(input: Option<int>, output: Option<int>)
      modifies this`run
      ensures Model() == RailFold.CountTokens(old(Model()), input, output)
    {
      run := run.(inputTokens := run.inputTokens + input.GetOr(0));
      run := run.(outputTokens := run.outputTokens + output.GetOr(0));
    }

    method CallModel(ph: PhaseCell?, ghost at: Option<nat>, e: Event)
      requires Valid() && IsAt(ph, at) && e.body.ModelCall?
      modifies this`run, this`view, phases
      ensures Valid() && Model() == RailFold.CallModel(old(Model()), at, e)
    {
      if e.body.costCents.Some? {
        AddCost(ph, at, e.body.costCents.value);
      }
      CountTokens(e.body.inputTokens, e.body.outputTokens);
      if e.body.said != "" {
        PushFor(ph, at, Line(e.body.said, Accent, Some(Narration)));
      }
    }

    method DropNarration(ph: PhaseCell?, ghost at: Option<nat>)
      requires Valid() && IsAt(ph, at)
      modifies this`view, phases
      ensures Valid() && Model() == RailFold.DropNarration(old(Model()), at)
    {
      if ph != null {
        var n := |ph.phase.events|;
        if n > 0 && ph.phase.events[n - 1].kind == Some(Narration) {
          ph.phase := ph.phase.(events := ph.phase.events[..n - 1]);
        }
        Refresh(at.value);
      }
    }

    method Blame(bad: bool)
      modifies this`run
      ensures Model() == RailFold.Blame(old(Model()), bad)
    {
      if bad {
        run := run.(errored := true);
      }
    }

    /** The branches that open, close or change the state of phases. */
    method ActOnPhases(ph: PhaseCell?, ghost at: Option<nat>, e: Event)
      requires Valid() && IsAt(ph, at) && IsPhaseEvent(e.body)
      modifies this, phases
      ensures Valid() && Model() == PhaseEffect(old(Model()), at, e)
      ensures forall p :: p in phases ==> p in old(phases) || fresh(p)
    {
      match e.body
      case PhaseStarted(_, _, _) => StartPhase(e);
      case PhaseCompleted(detail) => CompletePhase(ph, at, detail);
      case ApprovalRequested(message, question) =>
        RequestApproval(ph, at, OrElse(message, OrElse(question, "Approve?")));
      case ApprovalResolved(_, _, _, _) => ResolveApproval(ph, at, e);
      case ErrorRaised(message) => Fail(ph, at, message);
      case RunCompleted => CompleteRun();
    }

    /** The branches that add to or drop from what a phase shows and costs. */
    method ActOnLines(ph: PhaseCell?, ghost at: Option<nat>, e: Event)
      requires Valid() && IsAt(ph, at) && IsLineEvent(e.body)
      modifies this`run, this`view, phases
      ensures Valid() && Model() == LineEffect(old(Model()), at, e)
    {
      match e.body
      case VerificationVerdict(blocked, summary) =>
        Blame(blocked);
        PushFor(ph, at, VerdictLine(blocked, summary));
      case ClaimVerdict(status, statement) =>
        Blame(status == "refuted");
        PushFor(ph, at, ClaimLine(status, statement));
      case ModelCall(_, _, _, _) => CallModel(ph, at, e);
      case AssistantMessage => DropNarration(ph, at);
      case Other(line) =>
        if line.Some? {
          PushFor(ph, at, line.value);
        }
    }

    method ReadClock(ts: Option<int>)
      modifies this`run
      ensures Model() == Clock(old(Model()), ts)
    {
      if ts.Some? {
        if run.firstTs == None {
          run := run.(firstTs := ts);
        }
        run := run.(lastTs := ts);
      }
    }

    /** The reducer's switch over the event's type. */
    method Act(ph: PhaseCell?, ghost at: Option<nat>, e: Event)
      requires Valid() && IsAt(ph, at)
      modifies this, phases
      ensures Valid() && Model() == Dispatch(old(Model()), at, e)
      ensures forall p :: p in phases ==> p in old(phases) || fresh(p)
    {
      if IsPhaseEvent(e.body) {
        ActOnPhases(ph, at, e);
      } else if IsLineEvent(e.body) {
        ActOnLines(ph, at, e);
      } else if e.body.RunStarted? {
        if e.runId.Some? {
          run := run.(runId := e.runId.value);
        }
        run := run.(title := OrElse(e.body.title, OrElse(e.body.prompt, run.title)));
      } else {
        run := run.(todos := Some(Todos(e.body.tasks)));
      }
    }

    /** One turn of the reducer's loop. */
    method Receive(e: Event)
      requires Valid()
      modifies this, phases
      ensures Valid() && Model() == Step(old(Model()), e)
      ensures forall p :: p in phases ==> p in old(phases) || fresh(p)
    {
      ReadClock(e.ts);
      var ph, at := PhaseOf(e.phaseId);
      Act(ph, at, e);
    }

    /** The position of a phase's last action line, or -1. */
    method FindLastAction(events: seq<RailLine>) returns (lastActionIdx: int)
      ensures lastActionIdx == LastAction(events)
    {
      lastActionIdx := -1;
      var i := 0;
      while i < |events|
        invariant 0 <= i <= |events|
        invariant lastActionIdx == LastAction(events[..i])
      {
        assert events[..i + 1][..i] == events[..i];
        if events[i].kind != Some(Narration) {
          lastActionIdx := i;
        }
        i := i + 1;
      }
      assert events[..|events|] == events;
    }

    /** The status pass over one phase's lines. */
    method MarkLines(ph: PhaseCell)
      modifies ph
      ensures ph.phase == MarkedPhase(old(ph.phase), run.done)
    {
      var lastActionIdx := FindLastAction(ph.phase.events);
      var liveRunning := ph.phase.state == Running && !run.done;
      ghost var before := ph.phase.events;
      ghost var after := Marked(before, liveRunning);
      if lastActionIdx != -1 {
        var i := 0;
        while i < |ph.phase.events|
          invariant 0 <= i <= |ph.phase.events| == |before|
          invariant forall j :: 0 <= j < i ==> ph.phase.events[j] == after[j]
          invariant forall j :: i <= j < |before| ==> ph.phase.events[j] == before[j]
          invariant ph.phase == old(ph.phase).(events := ph.phase.events)
        {
          var e := ph.phase.events[i];
          if e.kind != Some(Narration) {
            SetStatus(ph, i, if i == lastActionIdx && liveRunning then LineRunning else LineDone);
          }
          i := i + 1;
        }
      }
      assert ph.phase.events == after;
    }

    method SetStatus(ph: PhaseCell, i: nat, status: LineStatus)
      requires i < |ph.phase.events|
      modifies ph
      ensures ph.phase
           == old(ph.phase).(events := old(ph.phase).events[i := old(ph.phase).events[i].(status := Some(status))])
    {
      ph.phase := ph.phase.(events := ph.phase.events[i := ph.phase.events[i].(status := Some(status))]);
    }

    /** The status pass over all phases. */
    method MarkPhases()
      requires Valid()
      modifies phases
      ensures forall i :: 0 <= i < |phases| ==> phases[i].phase == MarkedPhase(view[i], run.done)
    {
      var i := 0;
      while i < |phases|
        invariant 0 <= i <= |phases| == |view|
        invariant forall j :: 0 <= j < i ==> phases[j].phase == MarkedPhase(view[j], run.done)
        invariant forall j :: i <= j < |phases| ==> phases[j].phase == view[j]
      {
        MarkLines(phases[i]);
        i := i + 1;
      }
    }
  }

  method FoldEvents(events: seq<Event>) returns (r: Reducer)
    ensures fresh(r) && fresh(set p | p in r.phases)
    ensures r.Valid() && r.Model() == Fold(events)
  {
    r := new Reducer();
    var i := 0;
    while i < |events|
      invariant 0 <= i <= |events|
      invariant fresh(r) && forall p :: p in r.phases ==> fresh(p)
      invariant r.Valid() && r.Model() == Fold(events[..i])
    {
      assert forall k :: 0 <= k < |r.phases| ==> r.phases[k] in r.phases;
      r.Receive(events[i]);
      assert events[..i + 1][..i] == events[..i];
      i := i + 1;
    }
    assert events[..|events|] == events;
  }

  method ElapsedMs(run: Run, nowMs: Option<int>) returns (elapsedMs: int)
    ensures elapsedMs == Elapsed(run, nowMs)
  {
    var end := if run.done then (if run.lastTs.Some? then run.lastTs else if nowMs.Some? then nowMs else run.firstTs)
               else (if nowMs.Some? then nowMs else if run.lastTs.Some? then run.lastTs else run.firstTs);
    elapsedMs := 0;
    if run.firstTs.Some? {
      var d := end.GetOr(run.firstTs.value) - run.firstTs.value;
      elapsedMs := if d > 0 then d else 0;
    }
  }

  /** Runs the status pass and assembles the model. */
  method ReadModel(r: Reducer, o: Options) returns (model: RailModel)
    requires r.Valid()
    modifies r.phases
    ensures model == ReadOut(old(r.Model()), o)
  {
    r.MarkPhases();
    var marked := seq(|r.phases|, i requires 0 <= i < |r.phases| reads r, r.phases => r.phases[i].phase);
    assert marked == MarkedPhases(r.view, r.run.done);
    var elapsedMs := ElapsedMs(r.run, o.nowMs);
    var status := RunStatus(
      elapsedMs, r.run.costCents, o.safety.GetOr("standard-safe"), o.push.GetOr(false),
      o.model.GetOr("mock"), r.run.inputTokens, r.run.outputTokens, r.run.firstTs);
    model := RailModel(
      r.run.runId, r.run.title, o.autonomyLabel.GetOr(""), marked, status, r.run.approval, r.run.todos,
      r.run.done, r.run.errored);
  }

  /** Folds a whole stream of events and reads the model out. */
  method ReduceRail(events: seq<Event>, options: Options) returns (model: RailModel)
    ensures model == Reduced(events, options)
  {
    var r := FoldEvents(events);
    model := ReadModel(r, options);
  }
}
