/**
 Where the time of a run goes (packages/tui/src/rail-reducer.ts:209-228, 425-426), whatever its timestamps say: what
 the durations and the running clock show, and what passes outside of them, add up to the elapsed time.
 */
module RailBalance {
  import opened Wrappers
  import opened RailTypes
  import opened RailFold
  import opened RailTime

  // --- the running clock ---

  /** The start that the clock of the last phase runs from, if it runs. */
  function OpenStart(r: Rail): Option<int> {
    if r.phases == [] then None
    else
      var last := r.phases[|r.phases| - 1];
      if last.durationMs.None? && last.id in r.startMs then Some(r.startMs[last.id]) else None
  }

  /** What the running clock shows; it can be less than nothing. */
  function OpenTime(r: Rail): int {
    match OpenStart(r)
    case None => 0
    case Some(start) => r.run.lastTs.GetOr(start) - start
  }

  /** The time from the first timestamp to the last one read. */
  function Passed(r: Rail): int {
    r.run.lastTs.GetOr(0) - r.run.firstTs.GetOr(r.run.lastTs.GetOr(0))
  }

  // --- the time outside of phases ---

  /** How far the clock moves, forwards or back, while no phase is timed. */
  function Idle(r: Rail, ts: Option<int>): int {
    if OpenStart(r).Some? || ts.None? then 0 else ts.value - r.run.lastTs.GetOr(ts.value)
  }

  /** What a clock that is stopped before its start shows too much: it counts as nothing, not as less than nothing. */
  function Rounded(r: Rail, stopped: bool): int {
    if stopped && OpenTime(r) < 0 then -OpenTime(r) else 0
  }

  /** Whether the clock that runs before an event is stopped by it. */
  predicate StopsClock(r: Rail, e: Event) {
    && OpenStart(r).Some?
    && |r.phases| <= |Step(r, e).phases|
    && Step(r, e).phases[|r.phases| - 1].durationMs.Some?
  }

  /** The time that passes outside of the durations: below nothing if the clock goes back there. */
  function Outside(events: seq<Event>): int {
    if events == [] then 0
    else
      var front, e := events[..|events| - 1], events[|events| - 1];
      var r := Fold(front);
      Outside(front) + Idle(r, e.ts) - Rounded(Clock(r, e.ts), StopsClock(r, e))
  }

  // --- the balance is kept ---

  /** Every phase but the last is timed or never will be. */
  ghost predicate OnlyLastOpen(r: Rail) {
    forall i :: 0 <= i < |r.phases| - 1 ==> r.phases[i].durationMs.Some? || r.phases[i].id !in r.startMs
  }

  /** A start time was read from the clock. */
  ghost predicate ClockRead(r: Rail) {
    && (r.run.firstTs.Some? <==> r.run.lastTs.Some?)
    && (forall id :: id in r.startMs ==> r.run.lastTs.Some?)
  }

  /** Durations and the running clock. */
  function Measured(r: Rail): int {
    SumDurations(r.phases) + OpenTime(r)
  }

  lemma {:induction false} SameDurations(a: seq<Phase>, b: seq<Phase>)
    requires |a| == |b| && forall i :: 0 <= i < |a| ==> a[i].durationMs == b[i].durationMs
    ensures SumDurations(a) == SumDurations(b)
  {
    if a != [] {
      SameDurations(a[..|a| - 1], b[..|b| - 1]);
    }
  }

  lemma SumOfLast(phases: seq<Phase>, n: nat)
    requires n == |phases| - 1
    ensures SumDurations(phases) == SumDurations(phases[..n]) + phases[n].durationMs.GetOr(0)
  {
  }

  lemma ClosedStay(r: Rail, s: Rail, i: nat)
    requires OnlyLastOpen(r) && OnlyStops(r, s) && i < |r.phases| - 1
    ensures s.phases[i].durationMs == r.phases[i].durationMs && s.phases[i].id == r.phases[i].id
  {
    assert Stops(r.phases[i], s.phases[i], r.startMs, r.run.lastTs);
  }

  lemma FrontStays(r: Rail, s: Rail, n: nat)
    requires OnlyLastOpen(r) && OnlyStops(r, s) && n == |r.phases| - 1
    ensures SumDurations(s.phases[..n]) == SumDurations(r.phases[..n]) && OnlyLastOpen(s)
  {
    forall i | 0 <= i < n
      ensures s.phases[i].durationMs == r.phases[i].durationMs && s.phases[i].id == r.phases[i].id
    {
      ClosedStay(r, s, i);
    }
    SameDurations(s.phases[..n], r.phases[..n]);
  }

  /** Stopping clocks moves what the running one shows into a duration, and rounds it. */
  lemma StopsBalance(r: Rail, s: Rail, n: nat)
    requires OnlyLastOpen(r) && OnlyStops(r, s) && n == |r.phases| - 1 && ClockRead(r)
    ensures OnlyLastOpen(s)
    ensures Measured(s) == Measured(r) + Rounded(r, OpenStart(r).Some? && s.phases[n].durationMs.Some?)
  {
    FrontStays(r, s, n);
    SumOfLast(r.phases, n);
    SumOfLast(s.phases, n);
    assert Stops(r.phases[n], s.phases[n], r.startMs, r.run.lastTs);
  }

  lemma ClockBalance(r: Rail, ts: Option<int>)
    requires OnlyLastOpen(r) && ClockRead(r)
    ensures OnlyLastOpen(Clock(r, ts)) && ClockRead(Clock(r, ts)) && OpenStart(Clock(r, ts)) == OpenStart(r)
    ensures Measured(Clock(r, ts)) + Idle(r, ts) - Passed(Clock(r, ts)) == Measured(r) - Passed(r)
  {
  }

  lemma RollOverBalance(c: Rail, n: nat)
    requires OnlyLastOpen(c) && ClockRead(c) && n == |c.phases| - 1
    ensures OnlyLastOpen(RollOver(c)) && OpenStart(RollOver(c)).None?
    ensures Measured(RollOver(c)) == Measured(c) + Rounded(c, OpenStart(c).Some?)
  {
    RollOverStops(c);
    StopsBalance(c, RollOver(c), n);
  }

  /** A new phase starts with nothing on its clock. */
  lemma GrownBalance(q: Rail, s: Rail, p: Phase, mark: Mark)
    requires Grown(q, s, p, mark) && ClockRead(q) && OpenStart(q).None?
    requires mark.ts.None? ==> p.id !in q.startMs
    ensures Measured(s) == Measured(q) && ClockRead(s) && Passed(s) == Passed(q)
  {
    assert s.phases[..|q.phases|] == q.phases;
    SumOfLast(s.phases, |q.phases|);
  }

  // --- which phases are ever timed ---

  lemma StepKeepsIds(r: Rail, e: Event)
    ensures |r.phases| <= |Step(r, e).phases|
    ensures forall i :: 0 <= i < |r.phases| ==> Step(r, e).phases[i].id == r.phases[i].id
  {
    var c := Clock(r, e.ts);
    if e.body.PhaseStarted? {
      RollOverStops(c);
      var p := StartGrows(c, e);
      forall i | 0 <= i < |r.phases|
        ensures Step(r, e).phases[i].id == r.phases[i].id
      {
        assert Stops(c.phases[i], RollOver(c).phases[i], c.startMs, c.run.lastTs);
      }
    } else {
      StepStops(r, e);
      forall i | 0 <= i < |r.phases|
        ensures Step(r, e).phases[i].id == r.phases[i].id
      {
        assert Stops(c.phases[i], Step(r, e).phases[i], c.startMs, c.run.lastTs);
      }
    }
  }

  lemma SharedLater(events: seq<Event>, n: nat, i: nat)
    requires n == |events| - 1 && i < |Marks(events[..n])| == |Fold(events[..n]).phases|
    requires |Marks(events)| == |Fold(events).phases|
    ensures SharedWithTimed(Fold(events[..n]).phases, Marks(events[..n]), i)
        ==> SharedWithTimed(Fold(events).phases, Marks(events), i)
  {
    var r, marks := Fold(events[..n]), Marks(events[..n]);
    StepKeepsIds(r, events[n]);
    if SharedWithTimed(r.phases, marks, i) {
      var j :| 0 <= j < |r.phases| && marks[j].ts.Some? && r.phases[j].id == r.phases[i].id;
      assert Marks(events)[j] == marks[j];
    }
  }

  lemma SeparatedFront(events: seq<Event>, n: nat)
    requires Separated(events) && n == |events| - 1
    ensures Separated(events[..n])
  {
    FoldKeepsStarts(events[..n]);
    var marks := Marks(events[..n]);
    forall i | 0 <= i < |marks| && marks[i].ts.None?
      ensures !SharedWithTimed(Fold(events[..n]).phases, marks, i)
    {
      SharedLater(events, n, i);
      assert Marks(events)[i] == marks[i];
    }
  }

  lemma StartIsShared(r: Rail, marks: seq<Mark>, i: nat)
    requires StartsKept(r, marks) && i < |marks|
    ensures r.phases[i].id in r.startMs ==> SharedWithTimed(r.phases, marks, i)
  {
  }

  /** A separated stream keeps no start time for a phase that was started without one. */
  lemma UntimedHasNoStart(events: seq<Event>, i: nat)
    requires Separated(events) && i < |Marks(events)| && Marks(events)[i].ts.None?
    ensures Fold(events).phases[i].id !in Fold(events).startMs
  {
    FoldKeepsStarts(events);
    StartIsShared(Fold(events), Marks(events), i);
  }

  // --- the balance of whole streams ---

  ghost predicate Balanced(events: seq<Event>) {
    var r := Fold(events);
    OnlyLastOpen(r) && ClockRead(r) && Measured(r) + Outside(events) == Passed(r)
  }

  lemma OutsidePush(events: seq<Event>, n: nat)
    requires n == |events| - 1
    ensures var r, e := Fold(events[..n]), events[n];
            Outside(events) == Outside(events[..n]) + Idle(r, e.ts) - Rounded(Clock(r, e.ts), StopsClock(r, e))
  {
  }

  lemma OtherBalance(r: Rail, e: Event)
    requires !e.body.PhaseStarted? && OnlyLastOpen(r) && ClockRead(r)
    ensures OnlyLastOpen(Step(r, e)) && ClockRead(Step(r, e)) && Passed(Step(r, e)) == Passed(Clock(r, e.ts))
    ensures Measured(Step(r, e)) == Measured(Clock(r, e.ts)) + Rounded(Clock(r, e.ts), StopsClock(r, e))
  {
    var c, s := Clock(r, e.ts), Step(r, e);
    ClockBalance(r, e.ts);
    StepStops(r, e);
    if r.phases != [] {
      StopsBalance(c, s, |r.phases| - 1);
    }
  }

  /** No phase before the last of a separated stream has a clock that runs. */
  lemma StartClosesOthers(events: seq<Event>, c: Rail, i: nat)
    requires events != [] && events[|events| - 1].body.PhaseStarted? && Separated(events)
    requires c == Clock(Fold(events[..|events| - 1]), events[|events| - 1].ts) && i < |c.phases|
    requires OnlyLastOpen(RollOver(c)) && OpenStart(RollOver(c)).None? && StartsKept(c, Marks(events[..|events| - 1]))
    ensures Fold(events).phases[i].durationMs.Some? || Fold(events).phases[i].id !in Fold(events).startMs
  {
    var n, s := |events| - 1, Fold(events);
    var p := StartGrows(c, events[n]);
    RollOverStops(c);
    assert Stops(c.phases[i], RollOver(c).phases[i], c.startMs, c.run.lastTs);
    assert s == StartPhase(c, events[n]);
    if Marks(events)[i].ts.None? {
      UntimedHasNoStart(events, i);
    } else {
      assert Marks(events)[i] == Marks(events[..n])[i];
      assert c.phases[i].id in c.startMs;
    }
  }

  /** Before the new phase opens, the running clock is stopped. */
  lemma RolledBalance(c: Rail)
    requires OnlyLastOpen(c) && ClockRead(c)
    ensures OnlyLastOpen(RollOver(c)) && OpenStart(RollOver(c)).None? && ClockRead(RollOver(c))
    ensures Measured(RollOver(c)) == Measured(c) + Rounded(c, OpenStart(c).Some?)
    ensures Passed(RollOver(c)) == Passed(c)
  {
    RollOverStops(c);
    if c.phases != [] {
      RollOverBalance(c, |c.phases| - 1);
    }
  }

  lemma StartStopsClock(r: Rail, e: Event)
    requires e.body.PhaseStarted? && ClockRead(r)
    ensures StopsClock(r, e) <==> OpenStart(r).Some?
  {
    RollOverStops(Clock(r, e.ts));
    var p := StartGrows(Clock(r, e.ts), e);
  }

  lemma StartClosesAll(events: seq<Event>, n: nat, c: Rail)
    requires Separated(events) && n == |events| - 1 && events[n].body.PhaseStarted?
    requires c == Clock(Fold(events[..n]), events[n].ts)
    requires OnlyLastOpen(RollOver(c)) && OpenStart(RollOver(c)).None?
    ensures OnlyLastOpen(Fold(events))
  {
    FoldKeepsStarts(events[..n]);
    ClockKeepsStarts(Fold(events[..n]), events[n].ts, Marks(events[..n]));
    RollOverStops(c);
    var p := StartGrows(c, events[n]);
    forall i | 0 <= i < |Fold(events).phases| - 1
      ensures Fold(events).phases[i].durationMs.Some? || Fold(events).phases[i].id !in Fold(events).startMs
    {
      StartClosesOthers(events, c, i);
    }
  }

  lemma StartBalance(events: seq<Event>, n: nat)
    requires Separated(events) && n == |events| - 1 && events[n].body.PhaseStarted?
    requires OnlyLastOpen(Fold(events[..n])) && ClockRead(Fold(events[..n]))
    ensures var r, e, s := Fold(events[..n]), events[n], Fold(events);
            && OnlyLastOpen(s) && ClockRead(s) && Passed(s) == Passed(Clock(r, e.ts))
            && Measured(s) == Measured(Clock(r, e.ts)) + Rounded(Clock(r, e.ts), StopsClock(r, e))
  {
    var r, e := Fold(events[..n]), events[n];
    var c := Clock(r, e.ts);
    ClockBalance(r, e.ts);
    RolledBalance(c);
    StartStopsClock(r, e);
    StartClosesAll(events, n, c);
    NewPhaseBalance(events, n, c);
  }

  lemma NewPhaseBalance(events: seq<Event>, n: nat, c: Rail)
    requires Separated(events) && n == |events| - 1 && events[n].body.PhaseStarted?
    requires c == Clock(Fold(events[..n]), events[n].ts) && ClockRead(RollOver(c)) && OpenStart(RollOver(c)).None?
    ensures Measured(Fold(events)) == Measured(RollOver(c)) && ClockRead(Fold(events))
    ensures Passed(Fold(events)) == Passed(RollOver(c))
  {
    var e, s := events[n], Fold(events);
    RollOverStops(c);
    var p := StartGrows(c, e);
    if e.ts.None? {
      FoldKeepsStarts(events);
      UntimedHasNoStart(events, |Marks(events)| - 1);
    }
    GrownBalance(RollOver(c), s, p, Mark(e.ts, c.run.lastTs));
  }

  /**
   On every stream without shared ids, whatever its timestamps say, the durations, the running clock and the time
   outside of them add up to the time from the first timestamp to the last one read.
   */
  lemma {:induction false} TimeBalances(events: seq<Event>)
    requires Separated(events)
    ensures Balanced(events)
  {
    if events != [] {
      var n := |events| - 1;
      SeparatedFront(events, n);
      TimeBalances(events[..n]);
      OutsidePush(events, n);
      ClockBalance(Fold(events[..n]), events[n].ts);
      if events[n].body.PhaseStarted? {
        StartBalance(events, n);
      } else {
        OtherBalance(Fold(events[..n]), events[n]);
      }
    }
  }

  /** As long as timestamps do not go back, the time outside of durations is never negative. */
  lemma {:induction false} OutsidePositive(events: seq<Event>)
    requires Clocked(events)
    ensures Outside(events) >= 0 && OpenTime(Fold(events)) >= 0
  {
    FoldNotAhead(events);
    if events != [] {
      var n := |events| - 1;
      var r, e := Fold(events[..n]), events[n];
      OutsidePositive(events[..n]);
      OutsidePush(events, n);
      LastTsSeen(events[..n]);
      FoldNotAhead(events[..n]);
      assert e.ts.Some? && r.run.lastTs.Some? ==> r.run.lastTs.value <= e.ts.value;
    }
  }

  // --- when the bound breaks ---

  /** The time the elapsed time is counted to. */
  function Until(run: Run, o: Options): int {
    var last := run.lastTs.GetOr(0);
    if run.done then last else o.nowMs.GetOr(last)
  }

  /** The time that no duration shows. */
  function Uncounted(events: seq<Event>, o: Options): int {
    var r := Fold(events);
    Outside(events) + OpenTime(r) + (Until(r.run, o) - r.run.lastTs.GetOr(0))
  }

  /** Durations exceed the elapsed time exactly when there are any and the time that shows in none is negative. */
  lemma OvercountsIff(events: seq<Event>, o: Options)
    requires Separated(events) && Fold(events).run.lastTs.Some?
    ensures Overcounts(events, o) <==> SumDurations(Fold(events).phases) > 0 && Uncounted(events, o) < 0
  {
    var r := Fold(events);
    TimeBalances(events);
    MarkingKeepsDurations(r.phases, r.run.done);
  }
}
