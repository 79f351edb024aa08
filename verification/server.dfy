/** `SocketServer`: the connection registry (`connections.ws` and
    `connections.tcp`), the event emitter it reports to, and the handlers the
    two listeners install for a new connection, an inbound message and a
    disconnect. The emitter is an append-only log; every entry also records
    the registry as it stood when the event was emitted, so the log shows
    whether each emission came before or after a push or a removal. */
module Server {
  import opened Protocol
  import opened Lists
  import opened ReplyTypes

  const ConnectEvent: string := "connect"
  const DisconnectEvent: string := "disconnect"
  const UnsubscribeEvent: string := "unsubscribe"
  const GetEventsEvent: string := "get-events"
  const Wildcard: string := "*"

  function Other(kind: Kind): Kind
  {
    if kind == WebSocket then Tcp else WebSocket
  }

  /** The two connection lists at one moment. */
  datatype Registry = Registry(ws: seq<Socket>, tcp: seq<Socket>)
  {
    /** The list of one kind of connection. */
    function List(kind: Kind): seq<Socket>
    {
      if kind == WebSocket then ws else tcp
    }

    /** Every connection is registered once, under one kind. */
    ghost predicate Valid()
    {
      Distinct(ws) && Distinct(tcp) && forall s :: s in ws ==> s !in tcp
    }

    /** The registry after `connections[kind].push(s)`. */
    function Add(kind: Kind, s: Socket): (r: Registry)
      ensures r.List(kind) == List(kind) + [s] && r.List(Other(kind)) == List(Other(kind))
    {
      if kind == WebSocket then Registry(ws + [s], tcp) else Registry(ws, tcp + [s])
    }

    /** The registry after the `indexOf`/`splice` removal of `s` from its
        kind's list. */
    function Remove(kind: Kind, s: Socket): (r: Registry)
      ensures r.List(kind) == RemoveFirst(List(kind), s) && r.List(Other(kind)) == List(Other(kind))
    {
      if kind == WebSocket then Registry(RemoveFirst(ws, s), tcp) else Registry(ws, RemoveFirst(tcp, s))
    }
  }

  /** Registering a connection that is not yet registered keeps every
      connection registered once, and registers the new one exactly once,
      under its own kind only. */
  lemma AddKeepsValid(r: Registry, kind: Kind, s: Socket)
    requires r.Valid()
    requires s !in r.ws && s !in r.tcp
    ensures r.Add(kind, s).Valid()
    ensures multiset(r.Add(kind, s).List(kind))[s] == 1 && s !in r.Add(kind, s).List(Other(kind))
  {
  }

  /** Removing a connection keeps every connection registered once, leaves the
      removed one out of its kind's list, and leaves every other connection where it
      was. */
  lemma RemoveKeepsValid(r: Registry, kind: Kind, s: Socket)
    requires r.Valid()
    ensures r.Remove(kind, s).Valid()
    ensures s !in r.Remove(kind, s).List(kind)
    ensures forall t :: t != s ==> (t in r.Remove(kind, s).List(kind) <==> t in r.List(kind))
  {
  }

  /** A disconnect undoes the connect of a new connection. */
  lemma RemoveUndoesAdd(r: Registry, kind: Kind, s: Socket)
    requires s !in r.List(kind)
    ensures r.Add(kind, s).Remove(kind, s) == r
  {
  }

  /** One emitted event and the registry at the moment it was emitted. */
  datatype Emission = Emission(event: Event, registry: Registry)

  class SocketServer {
    const systemEvents: seq<string>
    var ws: seq<Socket>
    var tcp: seq<Socket>
    var log: seq<Emission>
    var outbox: seq<Output>

    ghost predicate Valid()
      reads this
    {
      Snapshot().Valid()
    }

    function Snapshot(): Registry
      reads this
    {
      Registry(ws, tcp)
    }

    function Connections(kind: Kind): seq<Socket>
      reads this
    {
      Snapshot().List(kind)
    }

    constructor(systemEvents: seq<string>)
      ensures this.systemEvents == systemEvents
      ensures ws == [] && tcp == [] && log == [] && outbox == []
      ensures Valid()
    {
      this.systemEvents := systemEvents;
      ws, tcp, log, outbox := [], [], [], [];
    }

    /** `this.emit(name, ...args)`. */
    method Emit(e: Event)
      modifies this`log
      ensures log == old(log) + [Emission(e, Snapshot())]
    {
      log := log + [Emission(e, Snapshot())];
    }

    /** The `connection` handler of either listener: emit `connect` with the
        socket, append it to its kind's list, then emit `get-events` with a
        callback that answers this socket alone. */
    method Connect(kind: Kind, s: Socket)
      modifies this`ws, this`tcp, this`log
      ensures Connections(kind) == old(Connections(kind)) + [s]
      ensures Connections(Other(kind)) == old(Connections(Other(kind)))
      ensures log == old(log) + [Emission(Event(ConnectEvent, [Conn(s)]), old(Snapshot())),
                                 Emission(Event(GetEventsEvent, [Fn(EventsReply(kind, s))]), Snapshot())]
      ensures Snapshot() == old(Snapshot()).Add(kind, s)
      ensures old(Valid()) && s !in old(ws) && s !in old(tcp) ==> Valid()
    {
      Emit(Event(ConnectEvent, [Conn(s)]));
      if kind == WebSocket {
        ws := ws + [s];
      } else {
        tcp := tcp + [s];
      }
      Emit(Event(GetEventsEvent, [Fn(EventsReply(kind, s))]));
      if old(Valid()) && s !in old(ws) && s !in old(tcp) {
        AddKeepsValid(old(Snapshot()), kind, s);
      }
    }

    /** The `disconnect` (socket.io) and `end` (stream) handlers: emit
        `disconnect` and the wildcard `unsubscribe` while the socket is still
        registered, then remove its first occurrence from its kind's list, if
        there is one. */
    method Disconnect(kind: Kind, s: Socket)
      modifies this`ws, this`tcp, this`log
      ensures log == old(log) + [Emission(Event(DisconnectEvent, [Conn(s)]), old(Snapshot())),
                                 Emission(Event(UnsubscribeEvent, [Text(Wildcard), Conn(s)]), old(Snapshot()))]
      ensures Connections(kind) == RemoveFirst(old(Connections(kind)), s)
      ensures Connections(Other(kind)) == old(Connections(Other(kind)))
      ensures Snapshot() == old(Snapshot()).Remove(kind, s)
      ensures old(Valid()) ==> Valid() && s !in Connections(kind)
    {
      Emit(Event(DisconnectEvent, [Conn(s)]));
      Emit(Event(UnsubscribeEvent, [Text(Wildcard), Conn(s)]));
      if kind == WebSocket {
        var index := IndexOf(ws, s);
        if index != -1 {
          ws := Splice(ws, index);
        }
      } else {
        var index := IndexOf(tcp, s);
        if index != -1 {
          tcp := Splice(tcp, index);
        }
      }
      if old(Valid()) {
        RemoveKeepsValid(old(Snapshot()), kind, s);
      }
    }

    /** `handleMessage(message, socket)`: emit the event `Dispatch` chooses. */
    method HandleMessage(m: Message, s: Socket)
      modifies this`log
      ensures log == old(log) + [Emission(Dispatch(systemEvents, m, s), Snapshot())]
    {
      Emit(Dispatch(systemEvents, m, s));
    }

    /** A handler invoking a callback it was given, with `(error, data)`. */
    method InvokeCallback(cb: Callback, error: Option<Value>, data: Option<Value>)
      modifies this`outbox
      ensures outbox == old(outbox) + Invoke(cb, error, data)
    {
      outbox := outbox + Invoke(cb, error, data);
    }
  }

  /** Two connections A and B on one socket.io listener; after A disconnects,
      B is the only registered connection, and a reply to a message from B
      still reaches B, under the reply type of the message. */
  method TwoConnectionsScenario(a: Socket, b: Socket, m: Message) returns (registered: seq<Socket>, sent: seq<Output>)
    requires a != b && b.hasSend
    ensures registered == [b]
    ensures sent == [Output(b, Send, Envelope(ReplyType(m.eventType), None))]
  {
    var server := new SocketServer([]);
    server.Connect(WebSocket, a);
    server.Connect(WebSocket, b);
    server.Disconnect(WebSocket, a);
    RemoveFirstPresent([], a, [b]);
    assert [] + [a] + [b] == [a, b];
    server.HandleMessage(m, b);
    var e := server.log[|server.log| - 1].event;
    assert e == Dispatch([], m, b);
    server.InvokeCallback(e.args[1].callback, None, None);
    registered, sent := server.ws, server.outbox;
  }
}
