/**
 What holds of the ACP client in every interleaving (apps/vscode/src/acp-client.ts:106-117, 167-176,
 191-303): sections 4.1 and 5 of the JSON-RPC 2.0 specification.
 */
module AcpProperties {
  import opened Wrappers
  import opened Seqs
  import opened Acp

  lemma {:induction false} RunIsValid(events: seq<Event>, hasHandler: bool)
    ensures Valid(Run(events, hasHandler))
  {
    if events != [] {
      RunIsValid(events[..|events| - 1], hasHandler);
      StepKeepsValid(Run(events[..|events| - 1], hasHandler), events[|events| - 1], hasHandler);
    }
  }

  // --- requests ---

  function HasClosed(events: seq<Event>): bool {
    events != [] && (HasClosed(events[..|events| - 1]) || events[|events| - 1].TransportClosed?)
  }

  /** How many requests were made. */
  function Made(events: seq<Event>): nat {
    if events == [] then 0
    else Made(events[..|events| - 1]) + if events[|events| - 1].Request? then 1 else 0
  }

  /** How many of them were made before the transport closed; the k-th of these has id k. */
  function Accepted(events: seq<Event>): nat {
    if events == [] then 0
    else
      var before := events[..|events| - 1];
      Accepted(before) + if events[|events| - 1].Request? && !HasClosed(before) then 1 else 0
  }

  /** An event that brings a message which names no method and carries this id, in whatever JSON form. */
  predicate Responds(e: Event, id: int) {
    && e.LineIn? && e.line.Parsed? && e.line.message.verb.None?
    && e.line.message.id.Some? && e.line.message.id.value.key == Some(id)
  }

  /** Whether an event settles the request with this id, if it is still waiting. */
  predicate Answers(e: Event, id: int) {
    e.TransportClosed? || Responds(e, id)
  }

  /** An error object rejects, even beside a result; else a result resolves; a response needs one of them. */
  function Answer(e: Event): Fate
    requires e.TransportClosed? || (e.LineIn? && e.line.Parsed?)
  {
    match e
    case TransportClosed => Rejected("ACP transport closed", None)
    case LineIn(Parsed(Message(_, _, _, ErrorObject(Some(text), code))), _) => Rejected(text, code)
    case LineIn(Parsed(Message(_, _, _, ErrorObject(None, code))), _) => Rejected("ACP error", code)
    case LineIn(Parsed(Message(_, _, Some(value), _)), _) => Resolved(value)
    case LineIn(Parsed(Message(_, _, None, _)), _) =>
      Rejected("ACP response missing both result and a valid error", None)
  }

  /** The answer of the first event at or after position `since` that settles `id`. */
  function FirstAnswer(events: seq<Event>, id: int, since: nat): Fate {
    if |events| <= since then Open
    else
      var n := |events| - 1;
      var before := FirstAnswer(events[..n], id, since);
      if before != Open then before
      else if Answers(events[n], id) then Answer(events[n])
      else Open
  }

  /** What the promise of the request made at position `i` holds after all events. */
  function Promised(events: seq<Event>, i: nat): Promise
    requires i < |events| && events[i].Request?
  {
    if HasClosed(events[..i])
    then Promise(None, Rejected("cannot call \"" + events[i].verb + "\": ACP transport is closed", None))
    else
      var id := Accepted(events[..i]) + 1;
      Promise(Some(id), FirstAnswer(events, id, i + 1))
  }

  lemma {:induction false} Counts(events: seq<Event>, hasHandler: bool)
    ensures var s := Run(events, hasHandler);
            s.closed == HasClosed(events) && s.nextId == Accepted(events) + 1 && |s.promises| == Made(events)
  {
    if events != [] {
      Counts(events[..|events| - 1], hasHandler);
    }
  }

  /** One event on one promise: a waiting one is settled exactly by an event that answers its id. */
  lemma StepOnPromise(s: State, e: Event, hasHandler: bool, p: nat)
    requires Valid(s) && p < |s.promises|
    ensures var q := Step(s, e, hasHandler).promises;
            && p < |q|
            && q[p] == if s.promises[p].fate == Open && Answers(e, s.promises[p].id.value)
                       then s.promises[p].(fate := Answer(e)) else s.promises[p]
  {
    if e.LineIn? && e.line.Parsed? && IsResponse(e.line.message) {
      var key := e.line.message.id.value.key;
      if key.Some? && key.value in s.pending {
        PendingIsOpen(s, key.value);
      }
      if s.promises[p].fate == Open {
        assert IsPending(s, p);
      }
    } else if e.TransportClosed? && s.promises[p].fate == Open {
      assert IsPending(s, p);
    }
  }

  /**
   Every request is settled by the first response that carries its id or by the close, whichever comes
   first, and by nothing after that; one made after the close is refused. Ids are given out as
   1, 2, 3, ... and so never repeat.
   */
  lemma {:induction false} SettledByFirstAnswer(events: seq<Event>, hasHandler: bool, i: nat)
    requires i < |events| && events[i].Request?
    ensures Made(events[..i]) < |Run(events, hasHandler).promises|
    ensures Run(events, hasHandler).promises[Made(events[..i])] == Promised(events, i)
  {
    var n := |events| - 1;
    var before := events[..n];
    var s := Run(before, hasHandler);
    RunIsValid(before, hasHandler);
    Counts(before, hasHandler);
    if i == n {
      Counts(events, hasHandler);
    } else {
      TakeTwice(events, n, i);
      SettledByFirstAnswer(before, hasHandler, i);
      StepOnPromise(s, events[n], hasHandler, Made(events[..i]));
    }
  }

  /** Every promise belongs to a request, so the lemma above speaks about all of them. */
  lemma {:induction false} EveryPromiseWasMade(events: seq<Event>, p: nat) returns (i: nat)
    requires p < Made(events)
    ensures i < |events| && events[i].Request? && Made(events[..i]) == p
  {
    var n := |events| - 1;
    if p < Made(events[..n]) {
      i := EveryPromiseWasMade(events[..n], p);
      assert events[..n][..i] == events[..i];
    } else {
      i := n;
    }
  }

  /** A request that was answered is never waiting again, and its answer never changes. */
  lemma {:induction false} AnswerStays(a: seq<Event>, b: seq<Event>, hasHandler: bool, p: nat)
    requires p < |Run(a, hasHandler).promises| && Run(a, hasHandler).promises[p].fate != Open
    ensures p < |Run(a + b, hasHandler).promises|
    ensures Run(a + b, hasHandler).promises[p] == Run(a, hasHandler).promises[p]
  {
    if b == [] {
      assert a + b == a;
    } else {
      var n := |b| - 1;
      assert (a + b)[..|a + b| - 1] == a + b[..n];
      AnswerStays(a, b[..n], hasHandler, p);
      RunIsValid(a + b[..n], hasHandler);
      StepOnPromise(Run(a + b[..n], hasHandler), b[n], hasHandler, p);
    }
  }

  /** Once the transport is closed nothing waits, and every later state keeps it so. */
  lemma NothingWaitsAfterClose(events: seq<Event>, hasHandler: bool)
    requires HasClosed(events)
    ensures Run(events, hasHandler).pending == map[]
    ensures forall p :: 0 <= p < |Run(events, hasHandler).promises| ==> Run(events, hasHandler).promises[p].fate != Open
  {
    RunIsValid(events, hasHandler);
    Counts(events, hasHandler);
    var s := Run(events, hasHandler);
    assert forall p :: 0 <= p < |s.promises| ==> s.promises[p].fate == Open ==> IsPending(s, p);
  }

  // --- the calls on the wire ---

  function CallIds(sent: seq<Outbound>): seq<int> {
    if sent == [] then []
    else
      var m := sent[|sent| - 1];
      CallIds(sent[..|sent| - 1]) + if m.Call? then [m.id] else []
  }

  lemma CallIdsPush(sent: seq<Outbound>, m: Outbound)
    ensures CallIds(sent + [m]) == CallIds(sent) + if m.Call? then [m.id] else []
  {
    assert (sent + [m])[..|sent|] == sent;
  }

  /** At most one message is sent per event, and only a request makes it a call. */
  lemma StepSends(s: State, e: Event, hasHandler: bool) returns (m: Option<Outbound>)
    ensures Step(s, e, hasHandler).sent == s.sent + if m.Some? then [m.value] else []
    ensures m.Some? && m.value.Call? <==> e.Request? && !s.closed
    ensures m.Some? && m.value.Call? ==> m.value.id == s.nextId
  {
    var s' := Step(s, e, hasHandler);
    assert s.sent + [] == s.sent;
    m := if s'.sent == s.sent then None else Some(s'.sent[|s.sent|]);
  }

  /** 1, 2, ..., n. */
  function FirstIds(n: nat): (r: seq<int>)
    ensures |r| == n && forall i :: 0 <= i < n ==> r[i] == i + 1
  {
    if n == 0 then [] else FirstIds(n - 1) + [n]
  }

  /** The ids sent are 1, 2, 3, ... in this order, one per accepted request. */
  lemma {:induction false} IdsNeverRepeat(events: seq<Event>, hasHandler: bool)
    ensures CallIds(Run(events, hasHandler).sent) == FirstIds(Accepted(events))
  {
    if events != [] {
      var n := |events| - 1;
      var s := Run(events[..n], hasHandler);
      IdsNeverRepeat(events[..n], hasHandler);
      Counts(events[..n], hasHandler);
      SendsNext(s, events[n], hasHandler);
    }
  }

  lemma SendsNext(s: State, e: Event, hasHandler: bool)
    ensures CallIds(Step(s, e, hasHandler).sent) == CallIds(s.sent) + if e.Request? && !s.closed then [s.nextId] else []
  {
    var m := StepSends(s, e, hasHandler);
    assert s.sent + [] == s.sent;
    if m.Some? {
      CallIdsPush(s.sent, m.value);
    }
  }

  // --- the agent's requests ---

  function Received(events: seq<Event>, id: JsonId): nat {
    if events == [] then 0
    else
      Received(events[..|events| - 1], id) + Asks(events[|events| - 1], id)
  }

  function Replies(sent: seq<Outbound>, id: JsonId): nat {
    if sent == [] then 0
    else
      var m := sent[|sent| - 1];
      Replies(sent[..|sent| - 1], id) + if m.Reply? && m.to == id then 1 else 0
  }

  function Undecided(calls: seq<HandlerCall>, id: JsonId): nat {
    if calls == [] then 0
    else
      var c := calls[|calls| - 1];
      Undecided(calls[..|calls| - 1], id) + if c.open && c.id == id then 1 else 0
  }

  lemma RepliesPush(sent: seq<Outbound>, m: Outbound, id: JsonId)
    ensures Replies(sent + [m], id) == Replies(sent, id) + if m.Reply? && m.to == id then 1 else 0
  {
    assert (sent + [m])[..|sent|] == sent;
  }

  lemma {:induction false} UndecidedAfterDecision(calls: seq<HandlerCall>, c: nat, id: JsonId)
    requires c < |calls| && calls[c].open
    ensures Undecided(calls[c := calls[c].(open := false)], id)
         == Undecided(calls, id) - if calls[c].id == id then 1 else 0
  {
    var n := |calls| - 1;
    var after := calls[c := calls[c].(open := false)];
    if c == n {
      assert after[..n] == calls[..n];
    } else {
      UndecidedAfterDecision(calls[..n], c, id);
      assert after[..n] == calls[..n][c := calls[c].(open := false)];
    }
  }

  lemma ServerRequestBalances(s: State, m: Message, hasHandler: bool, throws: bool, id: JsonId)
    requires IsServerRequest(m)
    ensures var s' := StepServerRequest(s, m, hasHandler, throws);
            Replies(s'.sent, id) + Undecided(s'.calls, id)
            == Replies(s.sent, id) + Undecided(s.calls, id) + if m.id.value == id then 1 else 0
  {
    var s' := StepServerRequest(s, m, hasHandler, throws);
    if s'.sent == s.sent {
      assert s'.calls[..|s.calls|] == s.calls;
    } else {
      RepliesPush(s.sent, s'.sent[|s.sent|], id);
    }
  }

  lemma SettledBalances(s: State, c: nat, choice: Option<string>, id: JsonId)
    ensures var s' := StepSettled(s, c, choice);
            Replies(s'.sent, id) + Undecided(s'.calls, id) == Replies(s.sent, id) + Undecided(s.calls, id)
  {
    if c < |s.calls| && s.calls[c].open {
      UndecidedAfterDecision(s.calls, c, id);
      RepliesPush(s.sent, Reply(s.calls[c].id, Selected(choice.GetOr("reject"))), id);
    }
  }

  /** What an event adds to the agent's requests with this id. */
  function Asks(e: Event, id: JsonId): nat {
    if e.LineIn? && e.line.Parsed? && e.line.message.verb.Some? && e.line.message.id == Some(id) then 1 else 0
  }

  lemma LineBalances(s: State, e: Event, hasHandler: bool, id: JsonId)
    requires e.LineIn?
    ensures var s' := Step(s, e, hasHandler);
            Replies(s'.sent, id) + Undecided(s'.calls, id)
            == Replies(s.sent, id) + Undecided(s.calls, id) + Asks(e, id)
  {
    if e.line.Parsed? && IsServerRequest(e.line.message) {
      ServerRequestBalances(s, e.line.message, hasHandler, e.handlerThrows, id);
    }
  }

  lemma StepBalances(s: State, e: Event, hasHandler: bool, id: JsonId)
    ensures var s' := Step(s, e, hasHandler);
            Replies(s'.sent, id) + Undecided(s'.calls, id)
            == Replies(s.sent, id) + Undecided(s.calls, id) + Asks(e, id)
  {
    match e
    case Request(verb) => RepliesPush(s.sent, Call(s.nextId, verb), id);
    case Notify(verb) => RepliesPush(s.sent, Notice(verb), id);
    case LineIn(_, _) => LineBalances(s, e, hasHandler, id);
    case HandlerSettled(c, choice) => SettledBalances(s, c, choice, id);
    case TransportClosed =>
  }

  /**
   For every id, the replies sent with it and the handler calls still undecided for it add up to the
   agent's requests received with it: each request gets exactly one reply with its own id once it is
   decided, and a notification, which has no id, gets none.
   */
  lemma {:induction false} OneReplyPerRequest(events: seq<Event>, hasHandler: bool, id: JsonId)
    ensures var s := Run(events, hasHandler);
            Replies(s.sent, id) + Undecided(s.calls, id) == Received(events, id)
  {
    if events != [] {
      OneReplyPerRequest(events[..|events| - 1], hasHandler, id);
      StepBalances(Run(events[..|events| - 1], hasHandler), events[|events| - 1], hasHandler, id);
    }
  }

  /** Event `j` is the decision that sent message `m`. */
  ghost predicate Decides(events: seq<Event>, hasHandler: bool, j: nat, m: Outbound) {
    && j < |events| && events[j].HandlerSettled? && m.Reply?
    && var calls := Run(events[..j], hasHandler).calls;
    && events[j].call < |calls|
    && calls[events[j].call] == HandlerCall(m.to, true)
    && m.body == Selected(events[j].choice.GetOr("reject"))
  }

  lemma DecidesLater(events: seq<Event>, hasHandler: bool, j: nat, n: nat, m: Outbound)
    requires n <= |events| && Decides(events[..n], hasHandler, j, m)
    ensures Decides(events, hasHandler, j, m)
  {
    assert events[..n][..j] == events[..j];
  }

  /** Any option but `reject` on the wire was chosen by the handler for that very request. */
  lemma {:induction false} OnlyChosenOptionsSent(events: seq<Event>, hasHandler: bool, k: nat)
    requires k < |Run(events, hasHandler).sent|
    requires var m := Run(events, hasHandler).sent[k]; m.Reply? && m.body.Selected? && m.body.optionId != "reject"
    ensures exists j: nat :: Decides(events, hasHandler, j, Run(events, hasHandler).sent[k])
  {
    if events != [] {
      var n := |events| - 1;
      var s := Run(events[..n], hasHandler);
      var m := Run(events, hasHandler).sent[k];
      if k < |s.sent| {
        var sentNow := StepSends(s, events[n], hasHandler);
        OnlyChosenOptionsSent(events[..n], hasHandler, k);
        var j: nat :| Decides(events[..n], hasHandler, j, s.sent[k]);
        DecidesLater(events, hasHandler, j, n, m);
      } else {
        assert Decides(events, hasHandler, n, m);
      }
    }
  }
}
