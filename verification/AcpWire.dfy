/**
 What the ACP client writes, told from the events alone (apps/vscode/src/acp-client.ts:125-176, 245-303):
 which event makes it send which message.
 */
module AcpWire {
  import opened Wrappers
  import opened Seqs
  import opened Acp
  import opened AcpProperties

  /** A line with both an id and a method: the agent asks something. */
  predicate IsAsked(e: Event) {
    e.LineIn? && e.line.Parsed? && e.line.message.id.Some? && e.line.message.verb.Some?
  }

  /** The agent asks for permission and there is a handler that takes the question. */
  predicate IsHandedOn(e: Event, hasHandler: bool) {
    && IsAsked(e) && e.line.message.verb == Some("session/request_permission")
    && hasHandler && !e.handlerThrows
  }

  /** The ids of the requests that were handed to the handler; the c-th of them is call c. */
  function HandedOn(events: seq<Event>, hasHandler: bool): seq<JsonId> {
    if events == [] then []
    else
      var n := |events| - 1;
      HandedOn(events[..n], hasHandler)
      + if IsHandedOn(events[n], hasHandler) then [events[n].line.message.id.value] else []
  }

  /** Whether the handler has come to a decision about call `c`, after the call was made. */
  predicate Decided(events: seq<Event>, hasHandler: bool, c: nat) {
    events != []
    && var n := |events| - 1;
    || Decided(events[..n], hasHandler, c)
    || (events[n].HandlerSettled? && events[n].call == c && c < |HandedOn(events[..n], hasHandler)|)
  }

  /** Call `c` waits for the handler. */
  predicate Waits(events: seq<Event>, hasHandler: bool, c: nat) {
    c < |HandedOn(events, hasHandler)| && !Decided(events, hasHandler, c)
  }

  /** The answer to a request that does not go to the handler. */
  function AtOnce(m: Message): Outbound
    requires m.id.Some? && m.verb.Some?
  {
    if m.verb.value == "session/request_permission" then Reply(m.id.value, Selected("reject"))
    else Reply(m.id.value, MethodNotFound(m.verb.value))
  }

  /** What event `e` makes the client write, after the events before it. */
  function Written(before: seq<Event>, e: Event, hasHandler: bool): seq<Outbound> {
    match e
    case Request(verb) => if HasClosed(before) then [] else [Call(Accepted(before) + 1, verb)]
    case Notify(verb) => if HasClosed(before) then [] else [Notice(verb)]
    case LineIn(_, _) => if IsAsked(e) && !IsHandedOn(e, hasHandler) then [AtOnce(e.line.message)] else []
    case HandlerSettled(c, choice) =>
      if !Waits(before, hasHandler, c) then []
      else [Reply(HandedOn(before, hasHandler)[c], Selected(if choice.Some? then choice.value else "reject"))]
    case TransportClosed => []
  }

  /** Everything written. */
  function Wire(events: seq<Event>, hasHandler: bool): seq<Outbound> {
    if events == [] then []
    else
      var n := |events| - 1;
      Wire(events[..n], hasHandler) + Written(events[..n], events[n], hasHandler)
  }

  /** The calls of the handler are exactly the requests handed on, open until they are decided. */
  ghost predicate CallsMatch(calls: seq<HandlerCall>, events: seq<Event>, hasHandler: bool) {
    && |calls| == |HandedOn(events, hasHandler)|
    && forall c :: 0 <= c < |calls| ==>
         calls[c] == HandlerCall(HandedOn(events, hasHandler)[c], !Decided(events, hasHandler, c))
  }

  lemma NoneDecidedBefore(events: seq<Event>, hasHandler: bool, c: nat)
    requires c >= |HandedOn(events, hasHandler)|
    ensures !Decided(events, hasHandler, c)
  {
    if events != [] {
      NoneDecidedBefore(events[..|events| - 1], hasHandler, c);
    }
  }

  lemma StepMatches(s: State, events: seq<Event>, n: nat, hasHandler: bool)
    requires n == |events| - 1 && CallsMatch(s.calls, events[..n], hasHandler)
    ensures CallsMatch(Step(s, events[n], hasHandler).calls, events, hasHandler)
  {
    var e := events[n];
    NoneDecidedBefore(events[..n], hasHandler, |s.calls|);
  }

  lemma StepWritesAnswer(s: State, before: seq<Event>, c: nat, choice: Option<string>, hasHandler: bool)
    requires CallsMatch(s.calls, before, hasHandler)
    ensures StepSettled(s, c, choice).sent == s.sent + Written(before, HandlerSettled(c, choice), hasHandler)
  {
    WithEmpty(s.sent);
  }

  lemma StepWrites(s: State, before: seq<Event>, e: Event, hasHandler: bool)
    requires CallsMatch(s.calls, before, hasHandler)
    requires s.closed == HasClosed(before) && s.nextId == Accepted(before) + 1
    ensures Step(s, e, hasHandler).sent == s.sent + Written(before, e, hasHandler)
  {
    match e
    case HandlerSettled(c, choice) => StepWritesAnswer(s, before, c, choice, hasHandler);
    case LineIn(_, _) => LineWrites(s, before, e, hasHandler);
    case _ => WithEmpty(s.sent);
  }

  lemma LineWrites(s: State, before: seq<Event>, e: Event, hasHandler: bool)
    requires e.LineIn?
    ensures Step(s, e, hasHandler).sent == s.sent + Written(before, e, hasHandler)
  {
    WithEmpty(s.sent);
    if IsAsked(e) {
      AskedWrites(s, e.line.message, hasHandler, e.handlerThrows);
    }
  }

  lemma AskedWrites(s: State, m: Message, hasHandler: bool, throws: bool)
    requires m.id.Some? && m.verb.Some?
    ensures StepServerRequest(s, m, hasHandler, throws).sent
         == if m.verb.value == PERMISSION && hasHandler && !throws then s.sent else s.sent + [AtOnce(m)]
  {
  }

  lemma {:induction false} CallsAreHandedOn(events: seq<Event>, hasHandler: bool)
    ensures CallsMatch(Run(events, hasHandler).calls, events, hasHandler)
  {
    if events != [] {
      var n := |events| - 1;
      CallsAreHandedOn(events[..n], hasHandler);
      StepMatches(Run(events[..n], hasHandler), events, n, hasHandler);
    }
  }

  /** In every run the client writes exactly what its events call for, one after the other. */
  lemma {:induction false} WrittenExactly(events: seq<Event>, hasHandler: bool)
    ensures Run(events, hasHandler).sent == Wire(events, hasHandler)
  {
    if events != [] {
      var n := |events| - 1;
      WrittenExactly(events[..n], hasHandler);
      CallsAreHandedOn(events[..n], hasHandler);
      Counts(events[..n], hasHandler);
      StepWrites(Run(events[..n], hasHandler), events[..n], events[n], hasHandler);
    }
  }

  lemma {:induction false} WireGrows(events: seq<Event>, i: nat, hasHandler: bool)
    requires i <= |events|
    ensures Wire(events[..i], hasHandler) <= Wire(events, hasHandler)
  {
    var n := |events| - 1;
    if i == |events| {
      CutWhole(events);
    } else {
      assert events[..n][..i] == events[..i];
      WireGrows(events[..n], i, hasHandler);
      Longer(Wire(events[..i], hasHandler), Wire(events[..n], hasHandler), Written(events[..n], events[n], hasHandler));
    }
  }

  /**
   When the handler decides a call that is still undecided, the reply goes to the request that opened the
   call and carries exactly the choice, or `reject` if there is none; it is the only message of that event.
   */
  lemma ChoiceIsSent(events: seq<Event>, hasHandler: bool, j: nat)
    requires j < |events| && events[j].HandlerSettled? && Waits(events[..j], hasHandler, events[j].call)
    ensures var k := |Run(events[..j], hasHandler).sent|;
            var id := HandedOn(events[..j], hasHandler)[events[j].call];
            && k < |Run(events, hasHandler).sent|
            && Run(events, hasHandler).sent[k] == Reply(id, Selected(events[j].choice.GetOr("reject")))
            && |Run(events[..j + 1], hasHandler).sent| == k + 1
  {
    WrittenExactly(events[..j], hasHandler);
    WrittenExactly(events[..j + 1], hasHandler);
    WrittenExactly(events, hasHandler);
    WireGrows(events, j + 1, hasHandler);
    assert events[..j + 1][..j] == events[..j];
  }
}
