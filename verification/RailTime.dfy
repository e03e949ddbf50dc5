/**
 Time in the rail (packages/tui/src/rail-reducer.ts:209-228, 242-259, 425-426): phases are timed
 over disjoint intervals, so the durations shown never add up to more than the elapsed time shown.
 */
module RailTime {
  import opened Wrappers
  import opened Seqs
  import opened RailTypes
  import opened RailFold

  /** Parsed timestamps never go back. */
  ghost predicate Clocked(events: seq<Event>) {
    forall i, j :: 0 <= i < j < |events| && events[i].ts.Some? && events[j].ts.Some?
                   ==> events[i].ts.value <= events[j].ts.value
  }

  /** A phase start: its own timestamp, if it parses, and what the clock showed then. */
  datatype Mark = Mark(ts: Option<int>, clock: Option<int>)

  /** The phase starts of a stream, one for each phase. */
  function Marks(events: seq<Event>): seq<Mark> {
    if events == [] then []
    else
      var front, e := events[..|events| - 1], events[|events| - 1];
      Marks(front) + (if e.body.PhaseStarted? then [Mark(e.ts, Clock(Fold(front), e.ts).run.lastTs)] else [])
  }

  /** The end of the time slot of phase `i`: the clock at the next phase's start, or now. */
  function SlotEnd(marks: seq<Mark>, i: nat, now: int): int
    requires i < |marks|
  {
    if i + 1 < |marks| then marks[i + 1].clock.GetOr(now) else now
  }

  /** A timed phase has a duration that ends inside its slot, or its clock still runs from its start. */
  ghost predicate Slotted(r: Rail, marks: seq<Mark>, i: nat)
    requires |marks| == |r.phases| && i < |marks| && r.run.lastTs.Some?
  {
    marks[i].ts.Some? ==>
      match r.phases[i].durationMs
      case Some(d) => 0 <= d && marks[i].ts.value + d <= SlotEnd(marks, i, r.run.lastTs.value)
      case None =>
        i == |marks| - 1 && r.phases[i].id in r.startMs && r.startMs[r.phases[i].id] == marks[i].ts.value
  }

  /** The clock at the start of phase `i` lies between the first timestamp and the end of its slot. */
  ghost predicate InOrder(r: Rail, marks: seq<Mark>, i: nat)
    requires i < |marks|
  {
    && (marks[i].ts.Some? ==> marks[i].clock == marks[i].ts)
    && (marks[i].clock.Some? ==>
          && r.run.lastTs.Some? && r.run.firstTs.Some?
          && (i + 1 < |marks| ==> marks[i + 1].clock.Some?)
          && r.run.firstTs.value <= marks[i].clock.value <= SlotEnd(marks, i, r.run.lastTs.value))
  }

  ghost predicate Timed(r: Rail, marks: seq<Mark>) {
    && |marks| == |r.phases|
    && (r.run.firstTs.Some? <==> r.run.lastTs.Some?)
    && (r.run.lastTs.Some? ==> r.run.firstTs.value <= r.run.lastTs.value)
    && (forall i :: 0 <= i < |marks| ==> InOrder(r, marks, i))
    && (r.run.lastTs.Some? ==> forall i :: 0 <= i < |marks| ==> Slotted(r, marks, i))
  }

  /** From `r` to `s` clocks were at most stopped. */
  ghost predicate OnlyStops(r: Rail, s: Rail) {
    && s.startMs == r.startMs
    && s.run.firstTs == r.run.firstTs
    && s.run.lastTs == r.run.lastTs
    && |s.phases| == |r.phases|
    && forall i :: 0 <= i < |r.phases| ==> Stops(r.phases[i], s.phases[i], r.startMs, r.run.lastTs)
  }

  ghost predicate Stops(p: Phase, q: Phase, startMs: map<string, int>, lastTs: Option<int>) {
    && q.id == p.id
    && (q.durationMs == p.durationMs || q.durationMs == WithDuration(p, startMs, lastTs).durationMs)
  }

  lemma ResolveStops(r: Rail, at: Option<nat>, e: Event)
    requires InRange(at, r.phases) && e.body.ApprovalResolved?
    ensures OnlyStops(r, ResolveApproval(r, at, e))
  {
  }

  lemma FailStops(r: Rail, at: Option<nat>, message: string)
    requires InRange(at, r.phases)
    ensures OnlyStops(r, Fail(r, at, message))
  {
  }

  lemma CompleteStops(r: Rail, at: Option<nat>, detail: string)
    requires InRange(at, r.phases)
    ensures OnlyStops(r, CompletePhase(r, at, detail))
  {
  }

  lemma CompleteRunStops(r: Rail)
    ensures OnlyStops(r, CompleteRun(r))
  {
  }

  lemma PhaseEffectStops(r: Rail, at: Option<nat>, e: Event)
    requires InRange(at, r.phases) && IsPhaseEvent(e.body) && !e.body.PhaseStarted?
    ensures OnlyStops(r, PhaseEffect(r, at, e))
  {
    match e.body
    case PhaseCompleted(detail) => CompleteStops(r, at, detail);
    case ApprovalRequested(_, _) =>
    case ApprovalResolved(_, _, _, _) => ResolveStops(r, at, e);
    case ErrorRaised(message) => FailStops(r, at, message);
    case RunCompleted => CompleteRunStops(r);
  }

  lemma CallStops(r: Rail, at: Option<nat>, e: Event)
    requires InRange(at, r.phases) && e.body.ModelCall?
    ensures OnlyStops(r, CallModel(r, at, e))
  {
  }

  lemma LineEffectStops(r: Rail, at: Option<nat>, e: Event)
    requires InRange(at, r.phases) && IsLineEvent(e.body)
    ensures OnlyStops(r, LineEffect(r, at, e))
  {
    if e.body.ModelCall? {
      CallStops(r, at, e);
    }
  }

  lemma StopKeepsTimed(r: Rail, s: Rail, marks: seq<Mark>)
    requires Timed(r, marks) && OnlyStops(r, s)
    ensures Timed(s, marks)
  {
    forall i | 0 <= i < |marks|
      ensures InOrder(s, marks, i)
      ensures r.run.lastTs.Some? ==> Slotted(s, marks, i)
    {
      assert InOrder(r, marks, i) && Stops(r.phases[i], s.phases[i], r.startMs, r.run.lastTs);
      assert r.run.lastTs.Some? ==> Slotted(r, marks, i);
    }
  }

  lemma ClockKeepsTimed(r: Rail, ts: Option<int>, marks: seq<Mark>)
    requires Timed(r, marks)
    requires ts.Some? && r.run.lastTs.Some? ==> r.run.lastTs.value <= ts.value
    ensures Timed(Clock(r, ts), marks)
  {
    var c := Clock(r, ts);
    forall i | 0 <= i < |marks|
      ensures InOrder(c, marks, i)
      ensures c.run.lastTs.Some? ==> Slotted(c, marks, i)
    {
      assert InOrder(r, marks, i);
      assert r.run.lastTs.Some? ==> Slotted(r, marks, i);
    }
  }

  lemma RollOverClosesAll(r: Rail, marks: seq<Mark>)
    requires Timed(r, marks)
    ensures Timed(RollOver(r), marks)
    ensures forall i :: 0 <= i < |marks| && marks[i].ts.Some? ==> RollOver(r).phases[i].durationMs.Some?
  {
    StopKeepsTimed(r, RollOver(r), marks);
    forall i | 0 <= i < |marks| && marks[i].ts.Some?
      ensures RollOver(r).phases[i].durationMs.Some?
    {
      assert InOrder(r, marks, i) && Slotted(r, marks, i);
    }
  }

  lemma StartKeepsTimed(r: Rail, e: Event, marks: seq<Mark>)
    requires Timed(r, marks) && e.body.PhaseStarted? && (e.ts.Some? ==> r.run.lastTs == e.ts)
    ensures Timed(StartPhase(r, e), marks + [Mark(e.ts, r.run.lastTs)])
  {
    RollOverClosesAll(r, marks);
    var s := StartPhase(r, e);
    var marks' := marks + [Mark(e.ts, r.run.lastTs)];
    forall i | 0 <= i < |marks'|
      ensures InOrder(s, marks', i)
      ensures s.run.lastTs.Some? ==> Slotted(s, marks', i)
    {
      if i < |marks| {
        assert InOrder(RollOver(r), marks, i);
        assert r.run.lastTs.Some? ==> Slotted(RollOver(r), marks, i);
      }
    }
  }

  lemma StepKeepsTimed(r: Rail, e: Event, marks: seq<Mark>)
    requires Timed(r, marks)
    requires e.ts.Some? && r.run.lastTs.Some? ==> r.run.lastTs.value <= e.ts.value
    ensures Timed(Step(r, e), marks + if e.body.PhaseStarted? then [Mark(e.ts, Clock(r, e.ts).run.lastTs)] else [])
  {
    var c, at := Clock(r, e.ts), PhaseFor(r.phases, e.phaseId);
    ClockKeepsTimed(r, e.ts, marks);
    assert marks + [] == marks;
    if e.body.PhaseStarted? {
      StartKeepsTimed(c, e, marks);
    } else {
      StepStops(r, e);
      StopKeepsTimed(c, Step(r, e), marks);
    }
  }

  lemma StepStops(r: Rail, e: Event)
    requires !e.body.PhaseStarted?
    ensures OnlyStops(Clock(r, e.ts), Step(r, e))
  {
    var c, at := Clock(r, e.ts), PhaseFor(r.phases, e.phaseId);
    if IsPhaseEvent(e.body) {
      PhaseEffectStops(c, at, e);
    } else if IsLineEvent(e.body) {
      LineEffectStops(c, at, e);
    }
  }

  /** The clock of a folded stream shows the last timestamp that parsed. */
  lemma StepReadsClock(r: Rail, e: Event)
    ensures Step(r, e).run.lastTs == if e.ts.Some? then e.ts else r.run.lastTs
  {
    var c, at := Clock(r, e.ts), PhaseFor(r.phases, e.phaseId);
    if IsPhaseEvent(e.body) && !e.body.PhaseStarted? {
      PhaseEffectStops(c, at, e);
    } else if IsLineEvent(e.body) {
      LineEffectStops(c, at, e);
    }
  }

  lemma {:induction false} LastTsSeen(events: seq<Event>)
    ensures Fold(events).run.lastTs.Some? ==>
              exists i :: 0 <= i < |events| && events[i].ts == Fold(events).run.lastTs
  {
    if events != [] {
      var n := |events| - 1;
      LastTsSeen(events[..n]);
      StepReadsClock(Fold(events[..n]), events[n]);
      if events[n].ts.None? && Fold(events).run.lastTs.Some? {
        var i :| 0 <= i < n && events[..n][i].ts == Fold(events[..n]).run.lastTs;
        assert events[i].ts == Fold(events).run.lastTs;
      }
    }
  }

  lemma {:induction false} FoldIsTimed(events: seq<Event>)
    requires Clocked(events)
    ensures Timed(Fold(events), Marks(events))
  {
    if events != [] {
      var n := |events| - 1;
      FoldIsTimed(events[..n]);
      LastTsSeen(events[..n]);
      StepKeepsTimed(Fold(events[..n]), events[n], Marks(events[..n]));
    }
  }

  // --- which start times are kept ---

  /** The kept start times belong to timed phases, and every timed phase's id has one. */
  ghost predicate StartsKept(r: Rail, marks: seq<Mark>) {
    && |marks| == |r.phases|
    && (forall id :: id in r.startMs ==> exists j :: 0 <= j < |marks| && marks[j].ts.Some? && r.phases[j].id == id)
    && (forall j :: 0 <= j < |marks| && marks[j].ts.Some? ==> r.phases[j].id in r.startMs)
    && (forall i :: 0 <= i < |marks| && r.phases[i].durationMs.Some? ==> r.phases[i].id in r.startMs)
  }

  lemma StopKeepsStarts(r: Rail, s: Rail, marks: seq<Mark>)
    requires StartsKept(r, marks) && OnlyStops(r, s)
    ensures StartsKept(s, marks)
  {
    forall i | 0 <= i < |marks|
      ensures s.phases[i].id == r.phases[i].id
      ensures s.phases[i].durationMs.Some? ==> s.phases[i].id in s.startMs
    {
      assert Stops(r.phases[i], s.phases[i], r.startMs, r.run.lastTs);
    }
    forall id | id in s.startMs
      ensures exists j :: 0 <= j < |marks| && marks[j].ts.Some? && s.phases[j].id == id
    {
      var j :| 0 <= j < |marks| && marks[j].ts.Some? && r.phases[j].id == id;
      assert s.phases[j].id == id;
    }
  }

  /** One more phase, whose start time is kept if it has one. */
  ghost predicate Grown(q: Rail, s: Rail, p: Phase, mark: Mark) {
    && s.phases == q.phases + [p] && p.durationMs.None? && s.run == q.run
    && (mark.ts.Some? ==> q.run.lastTs == mark.ts)
    && s.startMs == if mark.ts.Some? then q.startMs[p.id := mark.ts.value] else q.startMs
  }

  lemma GrownKeepsOwners(q: Rail, s: Rail, p: Phase, marks: seq<Mark>, mark: Mark, id: string)
    requires StartsKept(q, marks) && Grown(q, s, p, mark) && id in s.startMs
    ensures exists j :: 0 <= j < |marks + [mark]| && (marks + [mark])[j].ts.Some? && s.phases[j].id == id
  {
    var marks' := marks + [mark];
    if id in q.startMs {
      var j :| 0 <= j < |marks| && marks[j].ts.Some? && q.phases[j].id == id;
      assert marks'[j].ts.Some? && s.phases[j].id == id;
    } else {
      assert marks'[|marks|].ts.Some? && s.phases[|marks|].id == id;
    }
  }

  lemma GrownKeepsStarts(q: Rail, s: Rail, p: Phase, marks: seq<Mark>, mark: Mark)
    requires StartsKept(q, marks) && Grown(q, s, p, mark)
    ensures StartsKept(s, marks + [mark])
  {
    forall id | id in s.startMs
      ensures exists j :: 0 <= j < |marks + [mark]| && (marks + [mark])[j].ts.Some? && s.phases[j].id == id
    {
      GrownKeepsOwners(q, s, p, marks, mark, id);
    }
  }

  lemma StartKeepsStarts(r: Rail, e: Event, marks: seq<Mark>)
    requires StartsKept(r, marks) && e.body.PhaseStarted? && (e.ts.Some? ==> r.run.lastTs == e.ts)
    ensures StartsKept(StartPhase(r, e), marks + [Mark(e.ts, r.run.lastTs)])
  {
    RollOverStops(r);
    StopKeepsStarts(r, RollOver(r), marks);
    var p := StartGrows(r, e);
    GrownKeepsStarts(RollOver(r), StartPhase(r, e), p, marks, Mark(e.ts, r.run.lastTs));
  }

  lemma RollOverStops(r: Rail)
    ensures OnlyStops(r, RollOver(r)) && RollOver(r).run == r.run
  {
  }

  lemma StartGrows(r: Rail, e: Event) returns (p: Phase)
    requires e.body.PhaseStarted? && (e.ts.Some? ==> r.run.lastTs == e.ts)
    ensures Grown(RollOver(r), StartPhase(r, e), p, Mark(e.ts, r.run.lastTs))
  {
    p := Opened(NewPhaseId(e, |r.phases|), e.body.name, e.body.detail);
  }

  lemma {:induction false} FoldKeepsStarts(events: seq<Event>)
    ensures StartsKept(Fold(events), Marks(events))
  {
    if events != [] {
      var n := |events| - 1;
      var r, e, marks := Fold(events[..n]), events[n], Marks(events[..n]);
      FoldKeepsStarts(events[..n]);
      ClockKeepsStarts(r, e.ts, marks);
      if e.body.PhaseStarted? {
        StartKeepsStarts(Clock(r, e.ts), e, marks);
      } else {
        StepStops(r, e);
        StopKeepsStarts(Clock(r, e.ts), Fold(events), marks);
        assert Marks(events) == marks;
      }
    }
  }

  lemma ClockKeepsStarts(r: Rail, ts: Option<int>, marks: seq<Mark>)
    requires StartsKept(r, marks)
    ensures StartsKept(Clock(r, ts), marks)
  {
    var c := Clock(r, ts);
    forall id | id in c.startMs
      ensures exists j :: 0 <= j < |marks| && marks[j].ts.Some? && c.phases[j].id == id
    {
      var j :| 0 <= j < |marks| && marks[j].ts.Some? && r.phases[j].id == id;
      assert c.phases[j].id == id;
    }
  }

  /** No kept start time lies in the future. */
  ghost predicate NotAhead(r: Rail) {
    forall id :: id in r.startMs ==> r.run.lastTs.Some? && r.startMs[id] <= r.run.lastTs.value
  }

  lemma StartNotAhead(r: Rail, e: Event)
    requires NotAhead(r) && e.body.PhaseStarted? && (e.ts.Some? ==> r.run.lastTs == e.ts)
    ensures NotAhead(StartPhase(r, e))
  {
    RollOverStops(r);
    var p := StartGrows(r, e);
  }

  lemma {:induction false} FoldNotAhead(events: seq<Event>)
    requires Clocked(events)
    ensures NotAhead(Fold(events))
  {
    if events != [] {
      var n := |events| - 1;
      var r, e := Fold(events[..n]), events[n];
      FoldNotAhead(events[..n]);
      LastTsSeen(events[..n]);
      assert NotAhead(Clock(r, e.ts));
      if e.body.PhaseStarted? {
        StartNotAhead(Clock(r, e.ts), e);
      } else {
        StepStops(r, e);
      }
    }
  }

  // --- sums of durations ---

  function SumDurations(phases: seq<Phase>): int {
    if phases == [] then 0
    else SumDurations(phases[..|phases| - 1]) + phases[|phases| - 1].durationMs.GetOr(0)
  }

  /** The durations of the phases whose start has a timestamp. */
  function SumTimed(phases: seq<Phase>, marks: seq<Mark>): int
    requires |marks| == |phases|
  {
    if phases == [] then 0
    else
      var n := |phases| - 1;
      SumTimed(phases[..n], marks[..n]) + if marks[n].ts.Some? then phases[n].durationMs.GetOr(0) else 0
  }

  /** The durations of the others: they were measured from another phase's start. */
  function SumMistimed(phases: seq<Phase>, marks: seq<Mark>): int
    requires |marks| == |phases|
  {
    if phases == [] then 0
    else
      var n := |phases| - 1;
      SumMistimed(phases[..n], marks[..n]) + if marks[n].ts.None? then phases[n].durationMs.GetOr(0) else 0
  }

  lemma {:induction false} SumsSplit(phases: seq<Phase>, marks: seq<Mark>)
    requires |marks| == |phases|
    ensures SumDurations(phases) == SumTimed(phases, marks) + SumMistimed(phases, marks)
  {
    if phases != [] {
      SumsSplit(phases[..|phases| - 1], marks[..|phases| - 1]);
    }
  }

  /** One duration fits between what the clock showed at its start and at the next one. */
  lemma SlotReaches(r: Rail, marks: seq<Mark>, i: nat)
    requires Timed(r, marks) && r.run.lastTs.Some? && i < |marks|
    ensures Reached(r, marks, i) <= Reached(r, marks, i + 1)
    ensures marks[i].ts.Some? ==>
              0 <= r.phases[i].durationMs.GetOr(0) <= Reached(r, marks, i + 1) - Reached(r, marks, i)
  {
    assert Slotted(r, marks, i) && InOrder(r, marks, i);
    if i + 1 < |marks| {
      assert InOrder(r, marks, i + 1);
    }
  }

  /** The first `k` timed durations fit between the first timestamp and the clock at the next start. */
  lemma {:induction false} SlotsTelescope(r: Rail, marks: seq<Mark>, k: nat)
    requires Timed(r, marks) && r.run.lastTs.Some? && k <= |marks|
    ensures 0 <= SumTimed(r.phases[..k], marks[..k]) <= Reached(r, marks, k) - r.run.firstTs.value
  {
    if k > 0 {
      assert r.phases[..k][..k - 1] == r.phases[..k - 1] && marks[..k][..k - 1] == marks[..k - 1];
      SlotsTelescope(r, marks, k - 1);
      SlotReaches(r, marks, k - 1);
    } else if marks != [] {
      assert InOrder(r, marks, 0);
    }
  }

  /** What the clock showed at the `k`-th start, or the first timestamp as long as it showed nothing; now at the end. */
  function Reached(r: Rail, marks: seq<Mark>, k: nat): int
    requires r.run.lastTs.Some? && r.run.firstTs.Some? && k <= |marks|
  {
    if k == |marks| then r.run.lastTs.value
    else marks[k].clock.GetOr(r.run.firstTs.value)
  }

  lemma {:induction false} MarkingKeepsDurations(phases: seq<Phase>, done: bool)
    ensures SumDurations(MarkedPhases(phases, done)) == SumDurations(phases)
  {
    if phases != [] {
      var n := |phases| - 1;
      MarkingKeepsDurations(phases[..n], done);
      assert MarkedPhases(phases, done)[..n] == MarkedPhases(phases[..n], done);
    }
  }

  // --- what the model shows ---

  /**
   The intervals the durations of timed phases were measured over, `[start, start + duration]`, follow
   one another without overlap between the run's first and last timestamps, and of the timed phases only
   the last phase may still be running. A phase whose start has no timestamp is measured only if a timed
   phase has its id.
   */
  lemma PhaseIntervalsDisjoint(events: seq<Event>, o: Options)
    requires Clocked(events)
    ensures var phases, marks, run := Reduced(events, o).phases, Marks(events), Fold(events).run;
            && |phases| == |marks|
            && forall i :: 0 <= i < |phases| ==>
                 && (marks[i].ts.Some? ==>
                       && run.firstTs.Some? && run.lastTs.Some? && run.firstTs.value <= marks[i].ts.value
                       && (phases[i].durationMs.None? ==> i == |phases| - 1)
                       && (phases[i].durationMs.Some? ==>
                             && 0 <= phases[i].durationMs.value
                             && marks[i].ts.value + phases[i].durationMs.value <= SlotEnd(marks, i, run.lastTs.value)))
                 && (marks[i].ts.None? && phases[i].durationMs.Some? ==> SharedWithTimed(phases, marks, i))
  {
    FoldIsTimed(events);
    FoldKeepsStarts(events);
    var r, phases, marks := Fold(events), Reduced(events, o).phases, Marks(events);
    forall i | 0 <= i < |phases|
      ensures phases[i].durationMs == r.phases[i].durationMs && InOrder(r, marks, i)
      ensures r.run.lastTs.Some? ==> Slotted(r, marks, i)
      ensures phases[i].durationMs.Some? ==> SharedWithTimed(phases, marks, i)
    {
      if phases[i].durationMs.Some? {
        var j :| 0 <= j < |marks| && marks[j].ts.Some? && r.phases[j].id == r.phases[i].id;
        assert phases[j].id == phases[i].id;
      }
    }
  }

  /** A phase has the id of one whose start has a timestamp. */
  ghost predicate SharedWithTimed(phases: seq<Phase>, marks: seq<Mark>, i: nat)
    requires |marks| == |phases| && i < |phases|
  {
    exists j :: 0 <= j < |phases| && marks[j].ts.Some? && phases[j].id == phases[i].id
  }

  /** No phase whose start has no timestamp shares its id with one whose start has one, earlier or later. */
  ghost predicate Separated(events: seq<Event>) {
    && |Marks(events)| == |Fold(events).phases|
    && forall i :: 0 <= i < |Marks(events)| && Marks(events)[i].ts.None? ==>
         !SharedWithTimed(Fold(events).phases, Marks(events), i)
  }

  /** The view's clock is not behind the events. */
  ghost predicate ClockFits(events: seq<Event>, o: Options) {
    || Fold(events).run.done || o.nowMs.None?
    || (forall i :: 0 <= i < |events| && events[i].ts.Some? ==> events[i].ts.value <= o.nowMs.value)
  }

  /** However ids are shared, the durations of timed phases fit: only mistimed durations can break the bound. */
  lemma TimedDurationsFit(events: seq<Event>, o: Options)
    requires Clocked(events) && ClockFits(events, o)
    ensures |Marks(events)| == |Reduced(events, o).phases|
    ensures var phases, marks := Fold(events).phases, Marks(events);
            && 0 <= SumTimed(phases, marks) <= Reduced(events, o).status.elapsedMs
            && SumDurations(Reduced(events, o).phases) == SumTimed(phases, marks) + SumMistimed(phases, marks)
  {
    var r, marks := Fold(events), Marks(events);
    FoldIsTimed(events);
    LastTsSeen(events);
    MarkingKeepsDurations(r.phases, r.run.done);
    SumsSplit(r.phases, marks);
    TimedReach(r, marks);
    if r.run.lastTs.Some? {
      ElapsedFits(events, o, r.run);
    }
  }

  lemma TimedReach(r: Rail, marks: seq<Mark>)
    requires Timed(r, marks)
    ensures r.run.lastTs.Some? ==>
              r.run.firstTs.Some? && 0 <= SumTimed(r.phases, marks) <= r.run.lastTs.value - r.run.firstTs.value
    ensures r.run.lastTs.None? ==> SumTimed(r.phases, marks) == 0
  {
    var k := |marks|;
    CutWhole(r.phases);
    CutWhole(marks);
    if r.run.lastTs.Some? {
      SlotsTelescope(r, marks, k);
    } else {
      NothingTimed(r, marks, k);
    }
  }

  lemma ElapsedFits(events: seq<Event>, o: Options, run: Run)
    requires ClockFits(events, o) && run == Fold(events).run && run.firstTs.Some? && run.lastTs.Some?
    requires exists i :: 0 <= i < |events| && events[i].ts == run.lastTs
    ensures run.lastTs.value - run.firstTs.value <= Elapsed(run, o.nowMs)
  {
  }

  lemma {:induction false} NothingTimed(r: Rail, marks: seq<Mark>, k: nat)
    requires Timed(r, marks) && r.run.lastTs.None? && k <= |marks|
    ensures SumTimed(r.phases[..k], marks[..k]) == 0
  {
    if k > 0 {
      assert r.phases[..k][..k - 1] == r.phases[..k - 1] && marks[..k][..k - 1] == marks[..k - 1];
      NothingTimed(r, marks, k - 1);
      assert InOrder(r, marks, k - 1);
    }
  }

  /** The durations shown never add up to more than the elapsed time shown. */
  lemma DurationsFitElapsed(events: seq<Event>, o: Options)
    requires Clocked(events) && Separated(events) && ClockFits(events, o)
    ensures 0 <= SumDurations(Reduced(events, o).phases) <= Reduced(events, o).status.elapsedMs
  {
    TimedDurationsFit(events, o);
    FoldKeepsStarts(events);
    NoneMistimed(Fold(events), Marks(events));
  }

  lemma NoneMistimed(r: Rail, marks: seq<Mark>)
    requires StartsKept(r, marks)
    requires forall i :: 0 <= i < |marks| && marks[i].ts.None? ==> !SharedWithTimed(r.phases, marks, i)
    ensures SumMistimed(r.phases, marks) == 0
  {
    var k := |marks|;
    NothingMistimed(r, marks, k);
    CutWhole(r.phases);
    CutWhole(marks);
  }

  lemma {:induction false} NothingMistimed(r: Rail, marks: seq<Mark>, k: nat)
    requires StartsKept(r, marks) && k <= |marks|
    requires forall i :: 0 <= i < |marks| && marks[i].ts.None? ==> !SharedWithTimed(r.phases, marks, i)
    ensures SumMistimed(r.phases[..k], marks[..k]) == 0
  {
    if k > 0 {
      assert r.phases[..k][..k - 1] == r.phases[..k - 1] && marks[..k][..k - 1] == marks[..k - 1];
      NothingMistimed(r, marks, k - 1);
      if r.phases[k - 1].durationMs.Some? {
        MeasuredIsShared(r, marks, k - 1);
      }
    }
  }

  lemma MeasuredIsShared(r: Rail, marks: seq<Mark>, i: nat)
    requires StartsKept(r, marks) && i < |marks| && r.phases[i].durationMs.Some?
    ensures SharedWithTimed(r.phases, marks, i)
  {
  }

  // --- which ends of a run break the bound ---

  /** The clock of a phase runs: the end of the run will time it. */
  predicate Ticks(p: Phase, startMs: map<string, int>) {
    p.durationMs.None? && p.id in startMs && (p.state == Running || p.state == Waiting)
  }

  function TickCount(phases: seq<Phase>, startMs: map<string, int>): nat {
    if phases == [] then 0
    else
      TickCount(phases[..|phases| - 1], startMs) + if Ticks(phases[|phases| - 1], startMs) then 1 else 0
  }

  /** What the running clocks show at a time. */
  function TickSum(phases: seq<Phase>, startMs: map<string, int>, now: int): int {
    if phases == [] then 0
    else
      var last := phases[|phases| - 1];
      TickSum(phases[..|phases| - 1], startMs, now) + if Ticks(last, startMs) then now - startMs[last.id] else 0
  }

  lemma {:induction false} EndStopsTicks(r: Rail, now: int, k: nat)
    requires k <= |r.phases| && r.run.lastTs == Some(now)
    requires forall id :: id in r.startMs ==> r.startMs[id] <= now
    ensures SumDurations(CompleteRun(r).phases[..k])
         == SumDurations(r.phases[..k]) + TickSum(r.phases[..k], r.startMs, now)
  {
    if k > 0 {
      assert r.phases[..k][..k - 1] == r.phases[..k - 1];
      assert CompleteRun(r).phases[..k][..k - 1] == CompleteRun(r).phases[..k - 1];
      EndStopsTicks(r, now, k - 1);
    }
  }

  lemma {:induction false} TicksGrow(phases: seq<Phase>, startMs: map<string, int>, now: int, later: nat)
    ensures TickSum(phases, startMs, now + later) == TickSum(phases, startMs, now) + TickCount(phases, startMs) * later
  {
    if phases != [] {
      var front := phases[..|phases| - 1];
      TicksGrow(front, startMs, now, later);
      OneMore(TickCount(front, startMs), later);
    }
  }

  lemma OneMore(n: nat, k: nat)
    ensures (n + 1) * k == n * k + k
  {
  }

  lemma {:induction false} TickSumPositive(phases: seq<Phase>, startMs: map<string, int>, now: int)
    requires forall id :: id in startMs ==> startMs[id] <= now
    ensures TickSum(phases, startMs, now) >= 0
  {
    if phases != [] {
      TickSumPositive(phases[..|phases| - 1], startMs, now);
    }
  }

  function EndAt(now: int): Event {
    Event(None, Some(now), None, RunCompleted)
  }

  /** The durations shown exceed the elapsed time shown. */
  ghost predicate Overcounts(events: seq<Event>, o: Options) {
    SumDurations(Reduced(events, o).phases) > Reduced(events, o).status.elapsedMs
  }

  lemma EndShows(r: Rail, now: int, o: Options)
    requires r.run.lastTs.Some? && (forall id :: id in r.startMs ==> r.startMs[id] <= r.run.lastTs.value <= now)
    requires r.run.firstTs.Some? && r.run.firstTs.value <= now
    ensures var m := ReadOut(CompleteRun(Clock(r, Some(now))), o);
            && SumDurations(m.phases) == SumDurations(r.phases) + TickSum(r.phases, r.startMs, now)
            && m.status.elapsedMs == now - r.run.firstTs.value
  {
    var c := Clock(r, Some(now));
    EndStopsTicks(c, now, |r.phases|);
    assert c.phases[..|r.phases|] == r.phases;
    assert CompleteRun(c).phases[..|r.phases|] == CompleteRun(c).phases;
    MarkingKeepsDurations(CompleteRun(c).phases, true);
  }

  /** When the run ends at `now`, its durations exceed it. */
  ghost predicate EndExceeds(r: Rail, now: int) {
    SumDurations(r.phases) + TickSum(r.phases, r.startMs, now) > now - r.run.firstTs.GetOr(now)
  }

  /** The end of the run at a time breaks the bound exactly when durations and running clocks exceed the run. */
  lemma EndBreaksIff(events: seq<Event>, now: int, o: Options)
    requires Clocked(events) && Fold(events).run.lastTs.Some? && Fold(events).run.lastTs.value <= now
    ensures Overcounts(events + [EndAt(now)], o) <==> EndExceeds(Fold(events), now)
  {
    FoldIsTimed(events);
    FoldNotAhead(events);
    FoldPush(events, EndAt(now));
    EndShows(Fold(events), now, o);
  }

  /** Clocks and durations as every stream leaves them. */
  ghost predicate Sane(r: Rail) {
    && r.run.firstTs.Some? && r.run.lastTs.Some? && r.run.firstTs.value <= r.run.lastTs.value
    && (forall id :: id in r.startMs ==> r.startMs[id] <= r.run.lastTs.value)
    && SumDurations(r.phases) >= 0
  }

  lemma FoldIsSane(events: seq<Event>)
    requires Clocked(events) && Fold(events).run.lastTs.Some?
    ensures Sane(Fold(events))
  {
    FoldIsTimed(events);
    FoldNotAhead(events);
    DurationsPositive(events);
  }

  lemma SlowTicks(phases: seq<Phase>, startMs: map<string, int>, now: int, later: nat)
    requires TickCount(phases, startMs) <= 1
    ensures TickSum(phases, startMs, now + later) <= TickSum(phases, startMs, now) + later
  {
    TicksGrow(phases, startMs, now, later);
    AtMostOnce(TickCount(phases, startMs), later);
  }

  lemma TwiceAsMuch(n: nat, k: nat)
    requires n >= 2
    ensures n * k >= k + k
  {
    OneMore(n - 1, k);
    OneMore(n - 2, k);
  }

  lemma AtMostOnce(n: nat, k: nat)
    requires n <= 1
    ensures n * k <= k
  {
  }

  lemma OneClockKeeps(r: Rail, now: int)
    requires Sane(r) && r.run.lastTs.value <= now && TickCount(r.phases, r.startMs) <= 1
    requires !EndExceeds(r, r.run.lastTs.value)
    ensures !EndExceeds(r, now)
  {
    SlowTicks(r.phases, r.startMs, r.run.lastTs.value, now - r.run.lastTs.value);
  }

  lemma TwoClocksBreak(r: Rail) returns (now: int)
    requires Sane(r) && TickCount(r.phases, r.startMs) >= 2
    ensures r.run.lastTs.value <= now && EndExceeds(r, now)
  {
    var last := r.run.lastTs.value;
    var more: nat := last - r.run.firstTs.value + 1;
    now := last + more;
    TickSumPositive(r.phases, r.startMs, last);
    TicksGrow(r.phases, r.startMs, last, more);
    TwiceAsMuch(TickCount(r.phases, r.startMs), more);
  }

  /**
   Some end of the run breaks the bound exactly when two clocks run already, or when the durations so far and
   the running clock exceed the elapsed time already.
   */
  lemma SomeEndBreaksIff(events: seq<Event>, o: Options)
    requires Clocked(events) && Fold(events).run.lastTs.Some?
    ensures var r := Fold(events);
            (exists now: int :: r.run.lastTs.value <= now && Overcounts(events + [EndAt(now)], o))
            <==> TickCount(r.phases, r.startMs) >= 2 || EndExceeds(r, r.run.lastTs.value)
  {
    var r := Fold(events);
    FoldIsSane(events);
    if TickCount(r.phases, r.startMs) >= 2 {
      var now := TwoClocksBreak(r);
      EndBreaksIff(events, now, o);
    } else if EndExceeds(r, r.run.lastTs.value) {
      EndBreaksIff(events, r.run.lastTs.value, o);
    } else {
      forall now: int | r.run.lastTs.value <= now
        ensures !Overcounts(events + [EndAt(now)], o)
      {
        OneClockKeeps(r, now);
        EndBreaksIff(events, now, o);
      }
    }
  }

  lemma {:induction false} NoTick(phases: seq<Phase>, startMs: map<string, int>, now: int)
    requires TickCount(phases, startMs) == 0
    ensures TickSum(phases, startMs, now) == 0
    ensures forall k :: 0 <= k < |phases| ==> !Ticks(phases[k], startMs)
  {
    if phases != [] {
      NoTick(phases[..|phases| - 1], startMs, now);
    }
  }

  lemma {:induction false} OneTick(phases: seq<Phase>, startMs: map<string, int>, now: int, k: nat)
    requires TickCount(phases, startMs) == 1 && k < |phases| && Ticks(phases[k], startMs)
    ensures TickSum(phases, startMs, now) == now - startMs[phases[k].id]
  {
    var n := |phases| - 1;
    if Ticks(phases[n], startMs) {
      NoTick(phases[..n], startMs, now);
      assert forall j :: 0 <= j < n ==> phases[..n][j] == phases[j];
    } else {
      OneTick(phases[..n], startMs, now, k);
    }
  }

  /**
   With one running clock, some end of the run breaks the bound exactly when the durations so far exceed the
   time before the start that clock runs from. For a phase that was started without a timestamp this is the
   start of another phase with its id, which the durations since then usually reach behind.
   */
  lemma RunningClockBreaksIff(events: seq<Event>, o: Options, k: nat)
    requires Clocked(events) && Fold(events).run.lastTs.Some?
    requires var r := Fold(events);
             TickCount(r.phases, r.startMs) == 1 && k < |r.phases| && Ticks(r.phases[k], r.startMs)
    ensures var r := Fold(events);
            var last, first := r.run.lastTs.value, r.run.firstTs.GetOr(r.run.lastTs.value);
            (exists now: int :: last <= now && Overcounts(events + [EndAt(now)], o))
            <==> SumDurations(r.phases) > r.startMs[r.phases[k].id] - first
  {
    var r := Fold(events);
    OneTick(r.phases, r.startMs, r.run.lastTs.value, k);
    SomeEndBreaksIff(events, o);
  }

  lemma {:induction false} DurationsPositive(events: seq<Event>)
    ensures forall i :: 0 <= i < |Fold(events).phases| ==> Fold(events).phases[i].durationMs.GetOr(0) >= 0
    ensures SumDurations(Fold(events).phases) >= 0
  {
    if events != [] {
      var n := |events| - 1;
      DurationsPositive(events[..n]);
      StepKeepsPositive(Fold(events[..n]), events[n]);
    }
    SumPositive(Fold(events).phases);
  }

  lemma {:induction false} SumPositive(phases: seq<Phase>)
    requires forall i :: 0 <= i < |phases| ==> phases[i].durationMs.GetOr(0) >= 0
    ensures SumDurations(phases) >= 0
  {
    if phases != [] {
      SumPositive(phases[..|phases| - 1]);
    }
  }

  lemma StepKeepsPositive(r: Rail, e: Event)
    requires forall i :: 0 <= i < |r.phases| ==> r.phases[i].durationMs.GetOr(0) >= 0
    ensures forall i :: 0 <= i < |Step(r, e).phases| ==> Step(r, e).phases[i].durationMs.GetOr(0) >= 0
  {
    var c := Clock(r, e.ts);
    if !e.body.PhaseStarted? {
      StepStops(r, e);
      forall i | 0 <= i < |Step(r, e).phases|
        ensures Step(r, e).phases[i].durationMs.GetOr(0) >= 0
      {
        assert Stops(c.phases[i], Step(r, e).phases[i], c.startMs, c.run.lastTs);
      }
    }
  }

  // --- streams that break the bound ---

  lemma FoldPush(events: seq<Event>, e: Event)
    ensures Fold(events + [e]) == Step(Fold(events), e)
  {
    assert (events + [e])[..|events|] == events;
  }

  function At(ts: Option<int>, body: Body): Event {
    Event(None, ts, Some("a"), body)
  }

  lemma TimedOnce() returns (r: Rail)
    ensures r == Fold([At(Some(0), PhaseStarted("", "", "")), At(Some(10), PhaseCompleted(""))])
    ensures r.phases == [Phase("a", "a", Completed, None, [], Some(10), None)]
    ensures r.startMs == map["a" := 0] && r.run == IDLE.(firstTs := Some(0), lastTs := Some(10))
  {
    var start, over := At(Some(0), PhaseStarted("", "", "")), At(Some(10), PhaseCompleted(""));
    FoldPush([], start);
    FoldPush([start], over);
    assert [] + [start] == [start] && [start] + [over] == [start, over];
    assert Ids(Fold([start]).phases) == ["a"];
    r := Fold([start, over]);
  }

  lemma TimedTwice(once: Rail) returns (r: Rail)
    requires once.phases == [Phase("a", "a", Completed, None, [], Some(10), None)]
    requires once.startMs == map["a" := 0] && once.run == IDLE.(firstTs := Some(0), lastTs := Some(10))
    ensures r == Step(Step(once, At(None, PhaseStarted("", "", ""))), At(Some(20), PhaseCompleted("")))
    ensures SumDurations(r.phases) == 30 && r.run == IDLE.(firstTs := Some(0), lastTs := Some(20))
  {
    var reopened := Step(once, At(None, PhaseStarted("", "", "")));
    assert reopened.phases == once.phases + [Opened("a", "", "")];
    assert Ids(reopened.phases) == ["a", "a"];
    r := Step(reopened, At(Some(20), PhaseCompleted("")));
    assert r.phases == once.phases + [Opened("a", "", "").(state := Completed, durationMs := Some(20))];
    assert once.phases[..0] == [];
    assert SumDurations(once.phases) == 10;
    assert r.phases[..1] == once.phases;
  }

  lemma FoldedTwice(events: seq<Event>)
    requires events == [At(Some(0), PhaseStarted("", "", "")), At(Some(10), PhaseCompleted(""))]
                       + [At(None, PhaseStarted("", "", ""))] + [At(Some(20), PhaseCompleted(""))]
    ensures SumDurations(Fold(events).phases) == 30 && Fold(events).run == IDLE.(firstTs := Some(0), lastTs := Some(20))
  {
    var once := TimedOnce();
    var r := TimedTwice(once);
    var first := [At(Some(0), PhaseStarted("", "", "")), At(Some(10), PhaseCompleted(""))];
    FoldPush(first, At(None, PhaseStarted("", "", "")));
    FoldPush(first + [At(None, PhaseStarted("", "", ""))], At(Some(20), PhaseCompleted("")));
  }

  /**
   A phase start whose timestamp does not parse breaks the bound, although the timestamps that parse
   never go back: a phase that reuses an id is then timed from the earlier phase's start.
   */
  lemma UnparsedStartOvercounts() returns (events: seq<Event>, o: Options)
    ensures Clocked(events) && Overcounts(events, o)
  {
    events := [At(Some(0), PhaseStarted("", "", "")), At(Some(10), PhaseCompleted(""))]
              + [At(None, PhaseStarted("", "", ""))] + [At(Some(20), PhaseCompleted(""))];
    o := Options(None, None, None, None, None);
    FoldedTwice(events);
    MarkingKeepsDurations(Fold(events).phases, false);
  }

  lemma UntimedWaits() returns (r: Rail)
    ensures r == Fold([At(None, PhaseStarted("", "", "")), At(None, ApprovalRequested("", ""))])
    ensures r.phases == [Opened("a", "", "").(state := Waiting)] && r.startMs == map[]
    ensures r.run.firstTs.None? && r.run.lastTs.None?
  {
    var start, ask := At(None, PhaseStarted("", "", "")), At(None, ApprovalRequested("", ""));
    FoldPush([], start);
    FoldPush([start], ask);
    assert [] + [start] == [start] && [start] + [ask] == [start, ask];
    assert Ids(Fold([start]).phases) == ["a"];
    r := Fold([start, ask]);
  }

  lemma TimedLater(waits: Rail) returns (r: Rail)
    requires waits.phases == [Opened("a", "", "").(state := Waiting)] && waits.startMs == map[]
    requires waits.run.firstTs.None? && waits.run.lastTs.None?
    ensures r == Step(Step(waits, At(Some(5), PhaseStarted("", "", ""))), At(Some(10), RunCompleted))
    ensures SumDurations(r.phases) == 10 && r.run.done && r.run.firstTs == Some(5) && r.run.lastTs == Some(10)
  {
    var s := Step(waits, At(Some(5), PhaseStarted("", "", "")));
    assert s.phases == waits.phases + [Opened("a", "", "")];
    r := Step(s, At(Some(10), RunCompleted));
    var timed := waits.phases[0].(state := Completed, durationMs := Some(5));
    assert r.phases == [timed, Opened("a", "", "").(state := Completed, durationMs := Some(5))];
    assert r.phases[..1] == [timed];
    assert SumDurations([timed]) == 5;
  }

  /** So does a timed start that follows an untimed one: a phase that still waits is then timed from it as well. */
  lemma UntimedWaitOvercounts() returns (events: seq<Event>, o: Options)
    ensures Clocked(events) && Overcounts(events, o)
  {
    var first := [At(None, PhaseStarted("", "", "")), At(None, ApprovalRequested("", ""))];
    var start, end := At(Some(5), PhaseStarted("", "", "")), At(Some(10), RunCompleted);
    events := first + [start] + [end];
    o := Options(None, None, None, None, None);
    UntimedWaitCounted(events, o, first, start, end);
    LateClock(events, 2);
  }

  lemma UntimedWaitCounted(events: seq<Event>, o: Options, first: seq<Event>, start: Event, end: Event)
    requires first == [At(None, PhaseStarted("", "", "")), At(None, ApprovalRequested("", ""))]
    requires start == At(Some(5), PhaseStarted("", "", "")) && end == At(Some(10), RunCompleted)
    requires events == first + [start] + [end]
    ensures Overcounts(events, o)
  {
    var waits := UntimedWaits();
    var r := TimedLater(waits);
    FoldTwo(first, start, end);
    FinishedReadOut(events, o, r);
  }

  lemma FoldTwo(first: seq<Event>, a: Event, b: Event)
    ensures Fold(first + [a] + [b]) == Step(Step(Fold(first), a), b)
  {
    FoldPush(first, a);
    FoldPush(first + [a], b);
  }

  lemma LateClock(events: seq<Event>, n: nat)
    requires |events| == n + 2 && forall i :: 0 <= i < n ==> events[i].ts.None?
    requires events[n].ts.Some? && events[n + 1].ts.Some? && events[n].ts.value <= events[n + 1].ts.value
    ensures Clocked(events)
  {
  }

  /** What a finished run shows, whatever the clock says. */
  lemma FinishedReadOut(events: seq<Event>, o: Options, r: Rail)
    requires r == Fold(events) && r.run.done && r.run.firstTs.Some? && r.run.lastTs.Some?
    ensures SumDurations(Reduced(events, o).phases) == SumDurations(r.phases)
    ensures Reduced(events, o).status.elapsedMs == Elapsed(r.run, o.nowMs)
  {
    MarkingKeepsDurations(r.phases, true);
  }

  /** And so do timestamps that go back, with every start timed and no id used twice. */
  lemma ClockBackOvercounts() returns (events: seq<Event>, o: Options)
    ensures Separated(events) && !Clocked(events) && Overcounts(events, o)
  {
    var first := [At(Some(0), PhaseStarted("", "", "")), At(Some(10), PhaseCompleted(""))];
    var end := At(Some(5), RunCompleted);
    events := first + [end];
    o := Options(None, None, None, None, None);
    var once := TimedOnce();
    FoldPush(first, end);
    var r := EndedEarly(once, end);
    FinishedReadOut(events, o, r);
    assert events == [first[0], first[1], end];
    OneTimedStart(events, first[0], first[1], end, r);
    assert events[1].ts.value > events[2].ts.value;
  }

  lemma EndedEarly(once: Rail, end: Event) returns (r: Rail)
    requires once.phases == [Phase("a", "a", Completed, None, [], Some(10), None)]
    requires once.startMs == map["a" := 0] && once.run == IDLE.(firstTs := Some(0), lastTs := Some(10))
    requires end == At(Some(5), RunCompleted)
    ensures r == Step(once, end) && |r.phases| == 1 && SumDurations(r.phases) == 10
    ensures r.run.done && r.run.firstTs == Some(0) && r.run.lastTs == Some(5)
  {
    r := Step(once, end);
    assert r.phases == once.phases;
    assert once.phases[..0] == [];
  }

  lemma OneTimedStart(events: seq<Event>, start: Event, a: Event, b: Event, r: Rail)
    requires events == [start, a, b] && r == Fold(events) && |r.phases| == 1
    requires start.body.PhaseStarted? && !a.body.PhaseStarted? && !b.body.PhaseStarted? && start.ts.Some?
    ensures Separated(events)
  {
    MarksOfThree(start, a, b);
    AllTimed(events, Marks(events), r);
  }

  lemma AllTimed(events: seq<Event>, marks: seq<Mark>, r: Rail)
    requires marks == Marks(events) && r == Fold(events) && |marks| == |r.phases|
    requires forall i :: 0 <= i < |marks| ==> marks[i].ts.Some?
    ensures Separated(events)
  {
  }

  lemma MarksOfThree(start: Event, a: Event, b: Event)
    requires start.body.PhaseStarted? && !a.body.PhaseStarted? && !b.body.PhaseStarted?
    ensures |Marks([start, a, b])| == 1 && Marks([start, a, b])[0].ts == start.ts
  {
    assert [start, a, b][..2] == [start, a] && [start, a][..1] == [start] && [start][..0] == [];
    assert Marks([start]) == [Mark(start.ts, Clock(Fold([]), start.ts).run.lastTs)];
    assert Marks([start, a]) == Marks([start]);
  }
}
