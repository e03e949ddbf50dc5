/**
 The deterministic line editor (apps/cli/src/ui.ts:1059-1093): a queue of lines nobody asked for yet
 and a queue of questions nobody answered yet, over one input stream.
 */
module QueueEditor {
  import opened Wrappers

  /** What the promise a question returned holds: nothing yet, a line, or null at end of input. */
  datatype Answer = Unanswered | Line(text: string) | EndOfInput

  datatype Event = LineRead(text: string) | Asked | Closed

  datatype State = State(lines: seq<string>, waiters: seq<nat>, closed: bool, answers: seq<Answer>)

  const OPEN := State([], [], false, [])

  ghost predicate Valid(s: State) {
    && (forall i :: 0 <= i < |s.waiters| ==> s.waiters[i] < |s.answers|)
    && (forall i, j :: 0 <= i < j < |s.waiters| ==> s.waiters[i] != s.waiters[j])
  }

  /** All questions still waiting are answered with end of input. */
  function Flushed(s: State): seq<Answer> {
    seq(|s.answers|, i requires 0 <= i < |s.answers| => if i in s.waiters then EndOfInput else s.answers[i])
  }

  function Step(s: State, e: Event): State {
    match e
    case LineRead(text) =>
      if s.waiters != [] && s.waiters[0] < |s.answers|
      then s.(waiters := s.waiters[1..], answers := s.answers[s.waiters[0] := Line(text)])
      else s.(lines := s.lines + [text])
    case Asked =>
      if s.lines != [] then s.(lines := s.lines[1..], answers := s.answers + [Line(s.lines[0])])
      else if s.closed then s.(answers := s.answers + [EndOfInput])
      else s.(waiters := s.waiters + [|s.answers|], answers := s.answers + [Unanswered])
    case Closed => State(s.lines, [], true, Flushed(s))
  }

  function Run(events: seq<Event>): State {
    if events == [] then OPEN else Step(Run(events[..|events| - 1]), events[|events| - 1])
  }

  /** The editor object; `answers[q]` is what the promise of question `q` holds. */
  class Editor {
    var lines: seq<string>
    var waiters: seq<nat>
    var closed: bool
    var answers: seq<Answer>

    ghost function Model(): State
      reads this
    {
      State(lines, waiters, closed, answers)
    }

    constructor ()
      ensures Model() == OPEN
    {
      lines, waiters, closed, answers := [], [], false, [];
    }

    method OnLine(line: string)
      requires Valid(Model())
      modifies this
      ensures Valid(Model()) && Model() == Step(old(Model()), LineRead(line))
    {
      if waiters != [] {
        var waiter := waiters[0];
        waiters := waiters[1..];
        answers := answers[waiter := Line(line)];
      } else {
        lines := lines + [line];
      }
    }

    method OnClose()
      requires Valid(Model())
      modifies this
      ensures Valid(Model()) && Model() == Step(old(Model()), Closed)
    {
      closed := true;
      while waiters != []
        invariant lines == old(lines) && closed
        invariant Valid(Model()) && |answers| == |old(answers)|
        invariant Flushed(Model()) == Flushed(old(Model()))
        decreases |waiters|
      {
        var waiter := waiters[0];
        ghost var before := Model();
        waiters := waiters[1..];
        answers := answers[waiter := EndOfInput];
        assert before.waiters == [waiter] + waiters;
        assert Flushed(Model()) == Flushed(before);
      }
      assert answers == Flushed(Model());
    }

    method Question() returns (q: nat)
      requires Valid(Model())
      modifies this
      ensures Valid(Model()) && Model() == Step(old(Model()), Asked) && q == |old(answers)|
    {
      q := |answers|;
      if lines != [] {
        answers := answers + [Line(lines[0])];
        lines := lines[1..];
      } else if closed {
        answers := answers + [EndOfInput];
      } else {
        waiters := waiters + [q];
        answers := answers + [Unanswered];
      }
    }
  }

  // --- what was read, asked and closed, seen from outside ---

  function LinesOf(events: seq<Event>): seq<string> {
    if events == [] then []
    else
      var e := events[|events| - 1];
      LinesOf(events[..|events| - 1]) + if e.LineRead? then [e.text] else []
  }

  function Questions(events: seq<Event>): nat {
    if events == [] then 0
    else Questions(events[..|events| - 1]) + if events[|events| - 1].Asked? then 1 else 0
  }

  function HasClosed(events: seq<Event>): bool {
    events != [] && (HasClosed(events[..|events| - 1]) || events[|events| - 1].Closed?)
  }

  /** readline emits no line once it has closed. */
  ghost predicate NoLineAfterClose(events: seq<Event>) {
    forall i, j :: 0 <= i < j < |events| && events[i].Closed? ==> !events[j].LineRead?
  }

  /** The i-th question gets the i-th line, whichever came first; without one it ends with the input. */
  function Expected(lines: seq<string>, closed: bool, i: nat): Answer {
    if i < |lines| then Line(lines[i]) else if closed then EndOfInput else Unanswered
  }

  ghost predicate Matches(s: State, lines: seq<string>, asked: nat, closed: bool) {
    && s.closed == closed
    && |s.answers| == asked
    && (forall i :: 0 <= i < asked ==> s.answers[i] == Expected(lines, closed, i))
    && s.lines == (if asked < |lines| then lines[asked..] else [])
    && |s.waiters| == (if !closed && |lines| < asked then asked - |lines| else 0)
    && (forall i :: 0 <= i < |s.waiters| ==> s.waiters[i] == |lines| + i)
  }

  lemma StepMatches(s: State, lines: seq<string>, asked: nat, closed: bool, e: Event)
    requires Matches(s, lines, asked, closed)
    requires closed ==> !e.LineRead?
    ensures Matches(Step(s, e), if e.LineRead? then lines + [e.text] else lines,
                    if e.Asked? then asked + 1 else asked, closed || e.Closed?)
  {
    if e.Closed? {
      forall i | 0 <= i < asked
        ensures Step(s, e).answers[i] == Expected(lines, true, i)
      {
        if |lines| <= i && !closed {
          assert s.waiters[i - |lines|] == i;
        }
      }
    }
  }

  lemma {:induction false} RunMatches(events: seq<Event>)
    requires NoLineAfterClose(events)
    ensures Matches(Run(events), LinesOf(events), Questions(events), HasClosed(events))
  {
    if events != [] {
      var n := |events| - 1;
      RunMatches(events[..n]);
      NoLineNow(events);
      StepMatches(Run(events[..n]), LinesOf(events[..n]), Questions(events[..n]), HasClosed(events[..n]), events[n]);
      assert LinesOf(events[..n]) + [] == LinesOf(events[..n]);
    }
  }

  lemma {:induction false} ClosedSomewhere(events: seq<Event>)
    ensures HasClosed(events) ==> exists i :: 0 <= i < |events| && events[i].Closed?
  {
    if HasClosed(events) && !events[|events| - 1].Closed? {
      ClosedSomewhere(events[..|events| - 1]);
      var i :| 0 <= i < |events| - 1 && events[..|events| - 1][i].Closed?;
      assert events[i].Closed?;
    }
  }

  lemma NoLineNow(events: seq<Event>)
    requires events != [] && NoLineAfterClose(events)
    ensures HasClosed(events[..|events| - 1]) ==> !events[|events| - 1].LineRead?
  {
    ClosedSomewhere(events[..|events| - 1]);
  }

  /**
   In every interleaving of lines, questions and close with no line after close: the i-th question gets
   the i-th line, or null exactly when the input closed with fewer lines; buffered lines and waiting
   questions never coexist; and no question is left waiting after close.
   */
  lemma QuestionsGetLines(events: seq<Event>)
    requires NoLineAfterClose(events)
    ensures var s, lines := Run(events), LinesOf(events);
            && |s.answers| == Questions(events)
            && (forall i :: 0 <= i < |s.answers| ==> s.answers[i] == Expected(lines, HasClosed(events), i))
            && (s.lines == [] || s.waiters == [])
            && (HasClosed(events) ==> s.waiters == [] && Unanswered !in s.answers)
  {
    RunMatches(events);
  }
}
