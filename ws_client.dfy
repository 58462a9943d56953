/**
 * The browser-side `WebSocketClient` of an active Q&A session page: its
 * retry budget and reconnect timer, the close-code rule, the guarded `send`
 * and the per-event handler sets; plus the sender choice of `sendMessage`.
 *
 * The browser drives the client: the socket's open, close and message
 * events and the firing of the reconnect timer are methods the environment
 * calls. Handlers are named by numbers; invoking one is recorded in `calls`
 * and each transmitted frame in `sent`.
 */
module WsClient {
  import opened Wrappers

  const MAX_RETRIES: int := 2
  /** Delay of a reconnect attempt in milliseconds. */
  const RECONNECT_INTERVAL: int := 3000
  /** Close code the server uses when the instructor ends the session. */
  const SESSION_TERMINATE_CODE: int := 4000

  datatype ReadyState = Connecting | Open | Closed

  /** The JSON object `send` transmits. */
  datatype Frame = Frame(message: string, sender: string)

  /** One handler invocation with the event's data (`undefined` for `open`). */
  datatype Call = Call(handler: nat, data: Option<string>)

  predicate Distinct(hs: seq<nat>) {
    forall i, j :: 0 <= i < j < |hs| ==> hs[i] != hs[j]
  }

  /** `Set.prototype.add`: insertion-ordered, without duplicates. */
  function AddToSet(hs: seq<nat>, h: nat): (r: seq<nat>)
    ensures forall x :: x in r <==> x in hs || x == h
    ensures |hs| <= |r| && r[..|hs|] == hs
    ensures Distinct(hs) ==> Distinct(r)
  {
    if h in hs then hs else hs + [h]
  }

  /** Adding a handler that is already there changes nothing. */
  lemma AddToSetTwice(hs: seq<nat>, h: nat)
    ensures AddToSet(AddToSet(hs, h), h) == AddToSet(hs, h)
  {
  }

  /** `messageHandlers.get(event) || new Set()`. */
  function HandlersFor(handlers: map<string, seq<nat>>, event: string): (hs: seq<nat>)
    ensures event !in handlers ==> hs == []
  {
    if event in handlers then handlers[event] else []
  }

  /** Every handler of the set is called once, in insertion order, with the same data. */
  function Invocations(hs: seq<nat>, data: Option<string>): (cs: seq<Call>)
    ensures |cs| == |hs| && forall i :: 0 <= i < |cs| ==> cs[i].handler == hs[i] && cs[i].data == data
  {
    seq(|hs|, i requires 0 <= i < |hs| => Call(hs[i], data))
  }

  /** With distinct handlers, no handler is called twice. */
  lemma InvocationsOncePerHandler(hs: seq<nat>, data: Option<string>)
    requires Distinct(hs)
    ensures forall i, j :: 0 <= i < j < |Invocations(hs, data)| ==>
      Invocations(hs, data)[i].handler != Invocations(hs, data)[j].handler
  {
  }

  /** `sendMessage`: a checked anonymous box sends the empty sender, otherwise the user's name. */
  function ChooseSender(userName: string, checkboxPresent: bool, checked: bool): (sender: string)
    ensures checkboxPresent && checked ==> sender == ""
    ensures !(checkboxPresent && checked) ==> sender == userName
  {
    if checkboxPresent && checked then "" else userName
  }

  class WebSocketClient {
    /** `this.ws`: none before the first `connect`, else the ready state of the latest socket. */
    var ws: Option<ReadyState>
    var maxRetries: int
    /** Delay of every reconnect timer, in milliseconds. */
    var autoReconnectInterval: int
    /** Reconnect timers set and not yet fired. */
    var pendingTimers: nat
    /** The delay the pending reconnect timer was set with. */
    var timerDelay: int
    var handlers: map<string, seq<nat>>
    var sent: seq<Frame>
    var calls: seq<Call>
    /** Reconnect attempts since the last successful open. */
    ghost var attemptsSinceOpen: nat

    ghost predicate Valid()
      reads this
    {
      && 0 <= maxRetries && attemptsSinceOpen + maxRetries == MAX_RETRIES
      && autoReconnectInterval == RECONNECT_INTERVAL
      && pendingTimers <= 1
      && (pendingTimers == 1 ==> maxRetries > 0 && ws == Some(Closed) && timerDelay == autoReconnectInterval)
      && forall e :: e in handlers ==> Distinct(handlers[e])
    }

    constructor ()
      ensures Valid()
      ensures ws == None && maxRetries == MAX_RETRIES && autoReconnectInterval == RECONNECT_INTERVAL
      ensures pendingTimers == 0
      ensures handlers == map[] && sent == [] && calls == []
    {
      ws := None;
      maxRetries := MAX_RETRIES;
      autoReconnectInterval := RECONNECT_INTERVAL;
      pendingTimers := 0;
      timerDelay := 0;
      handlers := map[];
      sent := [];
      calls := [];
      attemptsSinceOpen := 0;
    }

    /** `connect`: a new socket, not open yet. */
    method Connect()
      requires pendingTimers == 0
      modifies this
      ensures ws == Some(Connecting)
      ensures maxRetries == old(maxRetries) && pendingTimers == 0 && handlers == old(handlers)
      ensures sent == old(sent) && calls == old(calls) && attemptsSinceOpen == old(attemptsSinceOpen)
      ensures autoReconnectInterval == old(autoReconnectInterval)
    {
      ws := Some(Connecting);
    }

    /** `onopen`: the retry budget is restored and the `open` handlers run. */
    method SocketOpened()
      requires Valid() && ws == Some(Connecting)
      modifies this
      ensures Valid() && ws == Some(Open)
      ensures maxRetries == MAX_RETRIES && attemptsSinceOpen == 0 && pendingTimers == old(pendingTimers)
      ensures handlers == old(handlers) && sent == old(sent)
      ensures calls == old(calls) + Invocations(HandlersFor(old(handlers), "open"), None)
    {
      ws := Some(Open);
      maxRetries := MAX_RETRIES;
      attemptsSinceOpen := 0;
      TriggerHandler("open", None);
    }

    /**
     * `onclose`: the session-terminated code never reconnects; any other
     * close reconnects when it was not clean and retries are left.
     */
    method SocketClosed(code: int, wasClean: bool)
      requires Valid() && (ws == Some(Connecting) || ws == Some(Open))
      modifies this
      ensures Valid() && ws == Some(Closed)
      ensures pendingTimers == (if code != SESSION_TERMINATE_CODE && !wasClean && maxRetries > 0 then 1 else 0)
      ensures code == SESSION_TERMINATE_CODE ==> pendingTimers == 0
      ensures maxRetries == old(maxRetries) && attemptsSinceOpen == old(attemptsSinceOpen)
      ensures handlers == old(handlers) && sent == old(sent) && calls == old(calls)
    {
      ws := Some(Closed);
      if code == SESSION_TERMINATE_CODE {
        // the instructor ended the session
      } else if !wasClean {
        Reconnect();
      }
    }

    /** `reconnect`: sets a timer of `autoReconnectInterval` milliseconds while retries are left. */
    method Reconnect()
      requires Valid() && ws == Some(Closed) && pendingTimers == 0
      modifies this
      ensures Valid() && ws == Some(Closed)
      ensures pendingTimers == (if maxRetries > 0 then 1 else 0)
      ensures pendingTimers == 1 ==> timerDelay == RECONNECT_INTERVAL
      ensures maxRetries == old(maxRetries) && attemptsSinceOpen == old(attemptsSinceOpen)
      ensures handlers == old(handlers) && sent == old(sent) && calls == old(calls)
    {
      if maxRetries > 0 {
        pendingTimers := pendingTimers + 1;
        timerDelay := autoReconnectInterval;
      }
    }

    /** The reconnect timer fires: connect again and spend one retry. */
    method TimerFired()
      requires Valid() && pendingTimers > 0
      modifies this
      ensures Valid() && ws == Some(Connecting) && pendingTimers == 0
      ensures maxRetries == old(maxRetries) - 1 && attemptsSinceOpen == old(attemptsSinceOpen) + 1
      ensures attemptsSinceOpen <= MAX_RETRIES
      ensures handlers == old(handlers) && sent == old(sent) && calls == old(calls)
    {
      pendingTimers := pendingTimers - 1;
      Connect();
      maxRetries := maxRetries - 1;
      attemptsSinceOpen := attemptsSinceOpen + 1;
    }

    /** `send`: transmits only on an open socket. */
    method Send(message: string, sender: string)
      modifies this
      ensures sent == old(sent) + (if ws == Some(Open) then [Frame(message, sender)] else [])
      ensures ws == old(ws) && maxRetries == old(maxRetries) && pendingTimers == old(pendingTimers)
      ensures handlers == old(handlers) && calls == old(calls) && attemptsSinceOpen == old(attemptsSinceOpen)
      ensures autoReconnectInterval == old(autoReconnectInterval) && timerDelay == old(timerDelay)
    {
      if ws == Some(Open) {
        sent := sent + [Frame(message, sender)];
      }
    }

    method AddHandler(event: string, handler: nat)
      requires Valid()
      modifies this
      ensures Valid()
      ensures handlers == old(handlers)[event := AddToSet(HandlersFor(old(handlers), event), handler)]
      ensures ws == old(ws) && maxRetries == old(maxRetries) && pendingTimers == old(pendingTimers)
      ensures sent == old(sent) && calls == old(calls) && attemptsSinceOpen == old(attemptsSinceOpen)
    {
      if event !in handlers {
        handlers := handlers[event := []];
      }
      handlers := handlers[event := AddToSet(handlers[event], handler)];
    }

    /** `triggerHandler`: calls each handler registered for the event; an unknown event calls none. */
    method TriggerHandler(event: string, data: Option<string>)
      modifies this
      ensures calls == old(calls) + Invocations(HandlersFor(old(handlers), event), data)
      ensures ws == old(ws) && maxRetries == old(maxRetries) && pendingTimers == old(pendingTimers)
      ensures handlers == old(handlers) && sent == old(sent) && attemptsSinceOpen == old(attemptsSinceOpen)
      ensures autoReconnectInterval == old(autoReconnectInterval) && timerDelay == old(timerDelay)
    {
      var hs := HandlersFor(handlers, event);
      var made: seq<Call> := [];
      var i := 0;
      while i < |hs|
        invariant 0 <= i <= |hs|
        invariant made == Invocations(hs[..i], data)
      {
        made := made + [Call(hs[i], data)];
        i := i + 1;
      }
      assert hs[..i] == hs;
      calls := calls + made;
    }

    /** `onmessage`: the `message` handlers run with the parsed data. */
    method SocketMessage(data: string)
      requires Valid() && ws == Some(Open)
      modifies this
      ensures Valid()
      ensures calls == old(calls) + Invocations(HandlersFor(old(handlers), "message"), Some(data))
      ensures ws == old(ws) && maxRetries == old(maxRetries) && pendingTimers == old(pendingTimers)
      ensures handlers == old(handlers) && sent == old(sent)
    {
      TriggerHandler("message", Some(data));
    }
  }

  /** `sendMessage`: sends the typed message under the chosen sender. */
  method SendMessage(client: WebSocketClient, userName: string, message: string, checkboxPresent: bool,
                     checked: bool)
    modifies client
    ensures client.sent == old(client.sent) +
      (if client.ws == Some(Open) then [Frame(message, ChooseSender(userName, checkboxPresent, checked))] else [])
    ensures client.ws == old(client.ws) && client.calls == old(client.calls)
  {
    client.Send(message, ChooseSender(userName, checkboxPresent, checked));
  }
}
