/** The dispatch router of `SocketServer`: the messages it receives, the
    events it emits for them, the two callbacks it hands to handlers, and the
    envelopes those callbacks send back over the originating socket. */
module Protocol {
  import opened ReplyTypes

  datatype Option<T> = None | Some(value: T)

  /** A JSON value as it travels in a `data` field (numbers kept as integers). */
  datatype Value =
    | Null
    | Bool(b: bool)
    | Number(n: int)
    | Str(s: string)
    | Array(items: seq<Value>)
    | Object(fields: map<string, Value>)

  /** Which listener accepted a connection: socket.io or a raw `net` stream. */
  datatype Kind = WebSocket | Tcp

  /** A connection handle, compared by identity. `hasSend` and `hasWrite` say
      whether the handle exposes `send` (socket.io) or `write` (a stream). */
  datatype Socket = Socket(id: nat, hasSend: bool, hasWrite: bool)

  /** An inbound message once parsed; `data == None` is JSON's missing field,
      which JavaScript reads as `undefined`. */
  datatype Message = Message(eventType: string, data: Option<Value>)

  /** An outbound `{ type, data }` envelope. */
  datatype Envelope = Envelope(eventType: string, data: Option<Value>)

  /** The closures the server hands to handlers, by what they close over. */
  datatype Callback =
    | Reply(origType: string, socket: Socket)   // the reply callback of one inbound message
    | EventsReply(kind: Kind, socket: Socket)   // the `get-events` callback of one new connection

  /** One argument of an emitted event. */
  datatype Arg =
    | Undefined
    | Data(value: Value)
    | Fn(callback: Callback)
    | Conn(socket: Socket)
    | Text(text: string)

  /** `this.emit(name, ...args)`. */
  datatype Event = Event(name: string, args: seq<Arg>)

  /** How an envelope leaves: `socket.send(envelope)` or
      `socket.write(JSON.stringify(envelope))`. */
  datatype Channel = Send | WriteJson

  /** One outbound transport call. */
  datatype Output = Output(to: Socket, channel: Channel, envelope: Envelope)

  const AvailableEventsType: string := "available-events"

  /** A message's `data` as an event argument. */
  function DataArg(data: Option<Value>): (a: Arg)
    ensures a.Undefined? <==> data.None?
    ensures data.Some? ==> a == Data(data.value)
  {
    match data
    case None => Undefined
    case Some(v) => Data(v)
  }

  /** The one event `handleMessage` emits for message `m` from socket `s`. A
      system event carries the raw connection and no callback; any other
      event carries a reply callback bound to the inbound type and `s`, which
      also stands in as the payload when the message had no `data`. */
  function Dispatch(systemEvents: seq<string>, m: Message, s: Socket): (e: Event)
    ensures e.name == m.eventType && |e.args| == 2
    ensures e.args[1] == Conn(s) <==> m.eventType in systemEvents
    ensures (e.args[0].Fn? || e.args[1].Fn?) <==> m.eventType !in systemEvents
    ensures m.data.Some? ==> e.args[0] == Data(m.data.value)
    ensures m.eventType in systemEvents ==> e.args[0] == DataArg(m.data)
    ensures m.eventType !in systemEvents ==>
              e.args[1] == Fn(Reply(m.eventType, s)) &&
              (m.data.None? ==> e.args[0] == e.args[1])
  {
    if m.eventType !in systemEvents then
      var callback := Fn(Reply(m.eventType, s));
      var payload := if m.data.None? then callback else Data(m.data.value);
      Event(m.eventType, [payload, callback])
    else
      Event(m.eventType, [DataArg(m.data), Conn(s)])
  }

  /** The duck-typed send of the reply callback: `send` when the socket has
      it, else `write` of the serialised envelope when it has that, else
      nothing. */
  function SendEnvelope(s: Socket, env: Envelope): (out: seq<Output>)
    ensures |out| <= 1
    ensures |out| == 1 <==> s.hasSend || s.hasWrite
    ensures forall o :: o in out ==> o.to == s && o.envelope == env && (o.channel == Send <==> s.hasSend)
  {
    if s.hasSend then [Output(s, Send, env)]
    else if s.hasWrite then [Output(s, WriteJson, env)]
    else []
  }

  /** What invoking callback `cb` with `(error, data)` sends. Either callback
      answers only the socket it was built for and forwards `data` as given;
      `error` never reaches the envelope. A reply goes out under the
      rewritten reply type; a `get-events` answer goes out as
      `available-events`, over `send` for socket.io and over `write` for a
      stream. */
  function Invoke(cb: Callback, error: Option<Value>, data: Option<Value>): (out: seq<Output>)
    ensures |out| <= 1
    ensures forall o :: o in out ==> o.to == cb.socket && o.envelope.data == data
    ensures cb.Reply? ==>
              (|out| == 1 <==> cb.socket.hasSend || cb.socket.hasWrite) &&
              forall o :: o in out ==>
                o.envelope.eventType == ReplyType(cb.origType) && (o.channel == Send <==> cb.socket.hasSend)
    ensures cb.EventsReply? ==>
              |out| == 1 && out[0].envelope.eventType == AvailableEventsType &&
              (out[0].channel == Send <==> cb.kind == WebSocket)
  {
    match cb
    case Reply(origType, s) => SendEnvelope(s, Envelope(ReplyType(origType), data))
    case EventsReply(kind, s) =>
      var env := Envelope(AvailableEventsType, data);
      if kind == WebSocket then [Output(s, Send, env)] else [Output(s, WriteJson, env)]
  }

  /** Dispatching a non-system message and invoking the callback found in
      the emitted event, with any error, sends exactly one envelope back to
      the originating socket when it can send or write: the reply type of the
      inbound type and the data given to the callback. */
  lemma DispatchThenReply(systemEvents: seq<string>, m: Message, s: Socket, error: Option<Value>, data: Option<Value>)
    requires m.eventType !in systemEvents
    requires s.hasSend || s.hasWrite
    ensures Dispatch(systemEvents, m, s).args[1].Fn?
    ensures Invoke(Dispatch(systemEvents, m, s).args[1].callback, error, data)
         == [Output(s, if s.hasSend then Send else WriteJson, Envelope(ReplyType(m.eventType), data))]
  {
  }

  /** The error a handler passes to a callback changes nothing that is sent. */
  lemma InvokeIgnoresError(r: Callback, error1: Option<Value>, error2: Option<Value>, data: Option<Value>)
    ensures Invoke(r, error1, data) == Invoke(r, error2, data)
  {
  }

  /** Worked case: `<ns>.get-update` without data (for `chat`, the request
      `chat.get-update`), answered with `("", {count: 3})` over socket.io,
      sends `<ns>.update` with that data. */
  lemma GetUpdateScenario(systemEvents: seq<string>, s: Socket, ns: string)
    requires Separator !in ns
    requires ns + [Separator] + GetUpdate !in systemEvents
    requires s.hasSend
    ensures var e := Dispatch(systemEvents, Message(ns + [Separator] + GetUpdate, None), s);
            e.args[0] == e.args[1] &&
            Invoke(e.args[0].callback, Some(Str("")), Some(Object(map["count" := Number(3)])))
              == [Output(s, Send, Envelope(ns + [Separator] + Update, Some(Object(map["count" := Number(3)]))))]
  {
    ReplyTypeOfRequest(ns, "");
    assert ns + [Separator] + GetUpdate + "" == ns + [Separator] + GetUpdate;
    assert ns + [Separator] + Update + "" == ns + [Separator] + Update;
    DispatchThenReply(systemEvents, Message(ns + [Separator] + GetUpdate, None), s,
                      Some(Str("")), Some(Object(map["count" := Number(3)])));
  }

  /** Worked case: `room.create` with data `{name: "x"}` reaches its handler as
      `({name: "x"}, callback)`, and `callback(null, {id: 1})` sends
      `room.create` with `{id: 1}` to the originating connection. */
  lemma ApplicationEventScenario(systemEvents: seq<string>, s: Socket)
    requires "room.create" !in systemEvents
    requires s.hasSend || s.hasWrite
    ensures var e := Dispatch(systemEvents, Message("room.create", Some(Object(map["name" := Str("x")]))), s);
            e.args == [Data(Object(map["name" := Str("x")])), Fn(Reply("room.create", s))] &&
            Invoke(e.args[1].callback, Some(Null), Some(Object(map["id" := Number(1)])))
              == [Output(s, if s.hasSend then Send else WriteJson,
                         Envelope("room.create", Some(Object(map["id" := Number(1)]))))]
  {
    ReplyTypeOfOtherRequest("room", "create", "");
    assert "room" + [Separator] + "create" + "" == "room.create";
    DispatchThenReply(systemEvents, Message("room.create", Some(Object(map["name" := Str("x")]))), s,
                      Some(Null), Some(Object(map["id" := Number(1)])));
  }

  /** Worked case: with `subscribe` a system event, `{type: "subscribe",
      data: "room1"}` reaches its handler as `("room1", connection)`. */
  lemma SystemEventScenario(s: Socket)
    ensures Dispatch(["subscribe"], Message("subscribe", Some(Str("room1"))), s)
         == Event("subscribe", [Data(Str("room1")), Conn(s)])
  {
  }
}
