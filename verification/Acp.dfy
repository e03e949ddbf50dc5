/**
 The ACP client's JSON-RPC state (apps/vscode/src/acp-client.ts): requests waiting for a response,
 the agent's requests waiting for the human, and close, in any order.
 */
module Acp {
  import opened Wrappers

  /** A message id as JSON text, with the integer that `Number(id)` yields, if any. */
  datatype JsonId = JsonId(json: string, key: Option<int>)

  /** The `error` member: missing, something that is no object (null included), or an object. */
  datatype ErrorField = NoError | NotAnObject | ErrorObject(message: Option<string>, code: Option<int>)

  datatype Message = Message(id: Option<JsonId>, verb: Option<string>, result: Option<string>, error: ErrorField)

  /** A line from the agent, as the client reads it. */
  datatype Inbound = Blank | NotJson | JsonNull | Parsed(message: Message)

  datatype ReplyBody = MethodNotFound(verb: string) | Selected(optionId: string)

  datatype Outbound =
    | Call(id: int, verb: string)
    | Notice(verb: string)
    | Reply(to: JsonId, body: ReplyBody)

  /** What the promise of a request holds. */
  datatype Fate = Open | Resolved(result: string) | Rejected(reason: string, code: Option<int>)

  /** A request's promise; it has no id when it was refused because the transport was closed. */
  datatype Promise = Promise(id: Option<int>, fate: Fate)

  /** A call of the permission handler, on behalf of the agent's request `id`. */
  datatype HandlerCall = HandlerCall(id: JsonId, open: bool)

  datatype Event =
    | Request(verb: string)
    | Notify(verb: string)
    // `handlerThrows`: whether a permission handler this line leads to throws at once.
    | LineIn(line: Inbound, handlerThrows: bool)
    // The handler's promise settles; no choice is null or a rejection.
    | HandlerSettled(call: nat, choice: Option<string>)
    | TransportClosed

  const PERMISSION := "session/request_permission"

  datatype State = State(
    nextId: int,
    pending: map<int, nat>,
    closed: bool,
    promises: seq<Promise>,
    calls: seq<HandlerCall>,
    sent: seq<Outbound>)

  const START := State(1, map[], false, [], [], [])

  function Refusal(verb: string): Fate {
    Rejected("cannot call \"" + verb + "\": ACP transport is closed", None)
  }

  const CLOSED_FATE := Rejected("ACP transport closed", None)

  /** What a response makes of the request it answers. */
  function FateOf(m: Message): Fate {
    if m.error.ErrorObject? then Rejected(m.error.message.GetOr("ACP error"), m.error.code)
    else if m.result.Some? then Resolved(m.result.value)
    else Rejected("ACP response missing both result and a valid error", None)
  }

  predicate IsResponse(m: Message) {
    m.id.Some? && m.verb.None?
  }

  predicate IsServerRequest(m: Message) {
    m.id.Some? && m.verb.Some?
  }

  predicate HasPending(s: State, id: Option<int>) {
    id.Some? && id.value in s.pending && s.pending[id.value] < |s.promises|
  }

  function Settle(promises: seq<Promise>, p: nat, fate: Fate): seq<Promise>
    requires p < |promises|
  {
    promises[p := promises[p].(fate := fate)]
  }

  function StepRequest(s: State, verb: string): State {
    if s.closed then s.(promises := s.promises + [Promise(None, Refusal(verb))])
    else s.(nextId := s.nextId + 1,
            pending := s.pending[s.nextId := |s.promises|],
            promises := s.promises + [Promise(Some(s.nextId), Open)],
            sent := s.sent + [Call(s.nextId, verb)])
  }

  function StepResponse(s: State, m: Message): State
    requires IsResponse(m)
  {
    if HasPending(s, m.id.value.key)
    then s.(pending := s.pending - {m.id.value.key.value},
            promises := Settle(s.promises, s.pending[m.id.value.key.value], FateOf(m)))
    else s
  }

  function StepServerRequest(s: State, m: Message, hasHandler: bool, handlerThrows: bool): State
    requires IsServerRequest(m)
  {
    if m.verb.value != PERMISSION then s.(sent := s.sent + [Reply(m.id.value, MethodNotFound(m.verb.value))])
    else if hasHandler && !handlerThrows then s.(calls := s.calls + [HandlerCall(m.id.value, true)])
    else s.(sent := s.sent + [Reply(m.id.value, Selected("reject"))])
  }

  function StepLine(s: State, line: Inbound, hasHandler: bool, handlerThrows: bool): State {
    if !line.Parsed? then s
    else if IsResponse(line.message) then StepResponse(s, line.message)
    else if IsServerRequest(line.message) then StepServerRequest(s, line.message, hasHandler, handlerThrows)
    else s
  }

  function StepSettled(s: State, c: nat, choice: Option<string>): State {
    if c < |s.calls| && s.calls[c].open
    then s.(calls := s.calls[c := s.calls[c].(open := false)],
            sent := s.sent + [Reply(s.calls[c].id, Selected(choice.GetOr("reject")))])
    else s
  }

  /** The pending map leads to promise `p`. */
  predicate IsPending(s: State, p: nat)
    requires p < |s.promises|
  {
    var id := s.promises[p].id;
    id.Some? && id.value in s.pending && s.pending[id.value] == p
  }

  /** All requests still pending are rejected. */
  function Flushed(s: State): seq<Promise> {
    seq(|s.promises|, p requires 0 <= p < |s.promises| =>
      if IsPending(s, p) then s.promises[p].(fate := CLOSED_FATE) else s.promises[p])
  }

  function StepClosed(s: State): State {
    if s.closed then s else s.(closed := true, pending := map[], promises := Flushed(s))
  }

  function Step(s: State, e: Event, hasHandler: bool): State {
    match e
    case Request(verb) => StepRequest(s, verb)
    case Notify(verb) => if s.closed then s else s.(sent := s.sent + [Notice(verb)])
    case LineIn(line, throws) => StepLine(s, line, hasHandler, throws)
    case HandlerSettled(c, choice) => StepSettled(s, c, choice)
    case TransportClosed => StepClosed(s)
  }

  function Run(events: seq<Event>, hasHandler: bool): State {
    if events == [] then START
    else Step(Run(events[..|events| - 1], hasHandler), events[|events| - 1], hasHandler)
  }

  /** A pending id leads to the open promise that carries it, and every open promise is pending. */
  ghost predicate Linked(s: State) {
    && (forall id :: id in s.pending ==>
          s.pending[id] < |s.promises| && s.promises[s.pending[id]] == Promise(Some(id), Open))
    && (forall p :: 0 <= p < |s.promises| && s.promises[p].fate == Open ==> IsPending(s, p))
    && (s.closed ==> s.pending == map[])
  }

  /** Ids grow from promise to promise. */
  ghost predicate Numbered(s: State) {
    && 1 <= s.nextId
    && (forall p :: 0 <= p < |s.promises| && s.promises[p].id.Some? ==> 1 <= s.promises[p].id.value < s.nextId)
    && (forall p, q :: 0 <= p < q < |s.promises| && s.promises[p].id.Some? && s.promises[q].id.Some?
          ==> s.promises[p].id.value < s.promises[q].id.value)
  }

  ghost predicate Valid(s: State) {
    Linked(s) && Numbered(s)
  }

  lemma PendingIsOpen(s: State, id: int)
    requires Linked(s) && id in s.pending
    ensures s.pending[id] < |s.promises| && s.promises[s.pending[id]] == Promise(Some(id), Open)
  {
  }

  ghost predicate SameIds(s: State, s': State) {
    && s'.nextId == s.nextId && |s'.promises| == |s.promises|
    && forall p :: 0 <= p < |s.promises| ==> s'.promises[p].id == s.promises[p].id
  }

  lemma SameIdsNumbered(s: State, s': State)
    requires Numbered(s) && SameIds(s, s')
    ensures Numbered(s')
  {
  }

  lemma ResponseKeepsLinked(s: State, m: Message)
    requires Linked(s) && IsResponse(m)
    ensures Linked(StepResponse(s, m))
  {
    var s' := StepResponse(s, m);
    if HasPending(s, m.id.value.key) {
      PendingIsOpen(s, m.id.value.key.value);
    }
    forall id | id in s'.pending
      ensures s'.pending[id] < |s'.promises| && s'.promises[s'.pending[id]] == Promise(Some(id), Open)
    {
      PendingIsOpen(s, id);
    }
    forall p | 0 <= p < |s'.promises| && s'.promises[p].fate == Open
      ensures IsPending(s', p)
    {
      assert IsPending(s, p);
    }
  }

  lemma ResponseKeepsValid(s: State, m: Message)
    requires Valid(s) && IsResponse(m)
    ensures Valid(StepResponse(s, m))
  {
    ResponseKeepsLinked(s, m);
    SameIdsNumbered(s, StepResponse(s, m));
  }

  lemma LineKeepsValid(s: State, line: Inbound, hasHandler: bool, throws: bool)
    requires Valid(s)
    ensures Valid(StepLine(s, line, hasHandler, throws))
  {
    var s' := StepLine(s, line, hasHandler, throws);
    if line.Parsed? && IsResponse(line.message) {
      ResponseKeepsValid(s, line.message);
    } else {
      OthersKeepValid(s, s');
    }
  }

  lemma OthersKeepValid(s: State, s': State)
    requires Valid(s)
    requires s'.nextId == s.nextId && s'.pending == s.pending && s'.closed == s.closed && s'.promises == s.promises
    ensures Valid(s')
  {
    assert forall p :: 0 <= p < |s.promises| ==> (IsPending(s, p) <==> IsPending(s', p));
  }

  lemma RequestKeepsValid(s: State, verb: string)
    requires Valid(s)
    ensures Valid(StepRequest(s, verb))
  {
    var s' := StepRequest(s, verb);
    forall p | 0 <= p < |s'.promises| && s'.promises[p].fate == Open
      ensures IsPending(s', p)
    {
      assert p < |s.promises| ==> IsPending(s, p);
    }
  }

  lemma CloseKeepsValid(s: State)
    requires Valid(s)
    ensures Valid(StepClosed(s))
  {
    SameIdsNumbered(s, StepClosed(s));
  }

  lemma StepKeepsValid(s: State, e: Event, hasHandler: bool)
    requires Valid(s)
    ensures Valid(Step(s, e, hasHandler))
  {
    match e
    case Request(verb) => RequestKeepsValid(s, verb);
    case LineIn(line, throws) => LineKeepsValid(s, line, hasHandler, throws);
    case TransportClosed => CloseKeepsValid(s);
    case _ => OthersKeepValid(s, Step(s, e, hasHandler));
  }

  class AcpClient {
    const hasHandler: bool
    var nextId: int
    var pending: map<int, nat>
    var closed: bool
    var promises: seq<Promise>
    var calls: seq<HandlerCall>
    var sent: seq<Outbound>

    ghost function Model(): State
      reads this
    {
      State(nextId, pending, closed, promises, calls, sent)
    }

    constructor (hasHandler: bool)
      ensures Model() == START && this.hasHandler == hasHandler
    {
      this.hasHandler := hasHandler;
      nextId, pending, closed, promises, calls, sent := 1, map[], false, [], [], [];
    }

    /** Calls a promise's resolver; it is never called on a promise that has settled. */
    method SettlePromise(p: nat, fate: Fate)
      requires p < |promises| && promises[p].fate == Open
      modifies `promises
      ensures promises == Settle(old(promises), p, fate)
    {
      promises := promises[p := promises[p].(fate := fate)];
    }

    method Write(message: Outbound)
      modifies `sent
      ensures sent == old(sent) + [message]
    {
      sent := sent + [message];
    }

    method Request(verb: string) returns (p: nat)
      requires Valid(Model())
      modifies this
      ensures Valid(Model()) && Model() == StepRequest(old(Model()), verb) && p == |old(promises)|
    {
      RequestKeepsValid(Model(), verb);
      p := |promises|;
      if closed {
        promises := promises + [Promise(None, Refusal(verb))];
        return;
      }
      var id := nextId;
      nextId := nextId + 1;
      promises := promises + [Promise(Some(id), Open)];
      pending := pending[id := p];
      Write(Call(id, verb));
    }

    method Notify(verb: string)
      requires Valid(Model())
      modifies `sent
      ensures Valid(Model()) && Model() == Step(old(Model()), Event.Notify(verb), hasHandler)
    {
      if !closed {
        Write(Notice(verb));
      }
      OthersKeepValid(old(Model()), Model());
    }

    method Receive(line: Inbound, handlerThrows: bool)
      requires Valid(Model())
      modifies this
      ensures Valid(Model()) && Model() == StepLine(old(Model()), line, hasHandler, handlerThrows)
    {
      LineKeepsValid(Model(), line, hasHandler, handlerThrows);
      if !line.Parsed? { return; }
      var message := line.message;
      if message.id.Some? && message.verb.None? {
        ResolveResponse(message);
      } else if message.id.Some? && message.verb.Some? {
        HandleServerRequest(message, handlerThrows);
      }
    }

    method ResolveResponse(m: Message)
      requires Valid(Model()) && IsResponse(m)
      modifies `pending, `promises
      ensures Model() == StepResponse(old(Model()), m)
    {
      var key := m.id.value.key;
      if key.None? || key.value !in pending { return; }
      PendingIsOpen(Model(), key.value);
      var p := pending[key.value];
      pending := pending - {key.value};
      if m.error.ErrorObject? {
        SettlePromise(p, Rejected(m.error.message.GetOr("ACP error"), m.error.code));
      } else if m.result.Some? {
        SettlePromise(p, Resolved(m.result.value));
      } else {
        SettlePromise(p, Rejected("ACP response missing both result and a valid error", None));
      }
    }

    /** Up to the await: an unknown method is answered, a permission request goes to the handler. */
    method HandleServerRequest(m: Message, handlerThrows: bool)
      requires IsServerRequest(m)
      modifies `calls, `sent
      ensures Model() == StepServerRequest(old(Model()), m, hasHandler, handlerThrows)
    {
      if m.verb.value != PERMISSION {
        Write(Reply(m.id.value, MethodNotFound(m.verb.value)));
        return;
      }
      if hasHandler && !handlerThrows {
        calls := calls + [HandlerCall(m.id.value, true)];
      } else {
        Write(Reply(m.id.value, Selected("reject")));
      }
    }

    /** After the await. */
    method OnHandlerSettled(c: nat, choice: Option<string>)
      requires Valid(Model())
      modifies `calls, `sent
      ensures Valid(Model()) && Model() == StepSettled(old(Model()), c, choice)
    {
      OthersKeepValid(Model(), StepSettled(Model(), c, choice));
      if c < |calls| && calls[c].open {
        var optionId := if choice.Some? then choice.value else "reject";
        Write(Reply(calls[c].id, Selected(optionId)));
        calls := calls[c := calls[c].(open := false)];
      }
    }

    method OnTransportClosed()
      requires Valid(Model())
      modifies `closed, `pending, `promises
      ensures Valid(Model()) && Model() == StepClosed(old(Model()))
    {
      CloseKeepsValid(Model());
      if closed { return; }
      closed := true;
      var waiting := pending.Keys;
      ghost var before := old(Model());
      while waiting != {}
        invariant closed && waiting <= pending.Keys && pending == before.pending && |promises| == |before.promises|
        invariant forall p :: 0 <= p < |promises| ==>
          promises[p] == if IsPending(before, p) && before.promises[p].id.value !in waiting
                         then before.promises[p].(fate := CLOSED_FATE) else before.promises[p]
        decreases waiting
      {
        ghost var some := AnElement(waiting);
        var id :| id in waiting;
        PendingIsOpen(before, id);
        SettlePromise(pending[id], Rejected("ACP transport closed", None));
        waiting := waiting - {id};
      }
      pending := map[];
    }
  }
}
