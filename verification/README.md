# hyperbutter-socket: routing and connection tracking

`SocketServer` (index.js) is an event bus that accepts clients over socket.io
and over raw TCP streams and turns their `{type, data}` messages into events on
one `EventEmitter`. This project models its routing and connection-tracking
core and proves properties of it in Dafny:

- **Reply-type rewriting** (`Segments`, `ReplyTypes`). The reply callback
  splits the inbound type on `.` with JavaScript's `split`, which keeps empty
  segments. When the second segment is exactly `get-update`, it becomes
  `update` and the segments are joined again. `Split` and `Join` are inverse
  to each other, and the rewrite is characterised both segment by segment and
  on the characters.
- **Dispatch** (`Protocol`). `handleMessage` emits exactly one event named
  after the message type. A system event carries `(data, connection)`. Any
  other event carries `(payload, callback)`, where the payload is the
  callback itself when the message had no `data`. Invoking a callback sends at
  most one `{type, data}` envelope, and only to the socket it was built for.
  It uses `send` when the socket has it and otherwise `write` of the
  serialised envelope. The `get-events` callback answers as
  `available-events`.
- **Connection registry and lifecycle** (`Lists`, `Server`). The class
  `SocketServer` holds the `ws` and `tcp` lists, the emitter's log and the
  outbound transport calls. Connect emits `connect`, pushes the socket onto
  its kind's list and emits `get-events`. Disconnect emits `disconnect` and
  `unsubscribe('*', socket)`, then removes the first occurrence via
  `indexOf`/`splice`, and changes nothing when the socket is absent. Each log
  entry records the registry at the moment of emission, so "emitted before
  removal" is part of the stated new state.

Modelling choices:

- Sockets are values compared by identity, with flags for whether they expose
  `send` and `write`.
- A missing `data` is `None`, JavaScript's `undefined`.
- The closures the server hands out are datatype values. `Reply(type, socket)`
  is the message reply callback. `EventsReply(kind, socket)` is the
  `get-events` callback.
- `JSON.stringify` stays abstract. A `WriteJson` output records the envelope
  that was serialised and written.

Three details of index.js that the model keeps:

- The `connect` event is emitted *before* the socket is pushed onto the
  registry (index.js:35-36, 93-94). `Connect`'s log entry for `connect`
  records the registry without the new socket, and the one for
  `get-events` records it with the socket.
- The reply callback writes only `if (socket.write)`. A socket with neither
  `send` nor `write` gets no reply at all (index.js:81-82). `SendEnvelope`
  returns no output in that case.
- Nothing in the code keeps a socket out of the registry twice. `Connect`
  has no precondition. The registry invariant (every connection once, under
  one kind) is proved to be kept for a socket that is not yet registered,
  which is what a freshly accepted socket is.

## Model

| member | source | states |
|---|---|---|
| `Segments.Split` | index.js:76 | `type.split('.')` yields at least one segment and no segment contains the separator |
| `Segments.JoinSplit` | index.js:76-79 | joining the segments of any string with the separator gives back that string, empty segments included |
| `Segments.SplitJoin` | index.js:76-79 | splitting the join of separator-free parts gives back the parts, so `split` and `join` are inverses |
| `Segments.Join` | index.js:79 | `chunks.join('.')` opens with the first part, followed by the separator when there is a second part (round trips: `JoinSplit`, `SplitJoin`) |
| `Segments.SeveralSegmentsIff` | index.js:76-77 | a type splits into two or more segments exactly when it contains a `.`, so `chunks[1]` exists exactly then |
| `Segments.SplitAfterSegment` | index.js:76 | a separator-free prefix followed by a separator is split off as the first segment |
| `Segments.SplitInjective` | index.js:76 | two types with the same segments are the same type |
| `ReplyTypes.IsGetUpdate` | index.js:77 | `chunks[1] === 'get-update'`; it can only hold of a type containing a `.`, since `chunks[1]` is undefined otherwise (lemmas: `ReplyTypeChangedIff`, `ReplyTypeOfRequest`, `ReplyTypeOfOtherRequest`) |
| `ReplyTypes.ReplyType` | index.js:75-80 | the reply type's segments are the inbound type's segments with the second replaced by `update` exactly when it was `get-update`; the count and all other segments are unchanged, and any other type is sent back as it came (lemmas: `ReplyTypeChangedIff`, `ReplyTypeIdempotent`, `ReplyTypeOfRequest`) |
| `ReplyTypes.ReplyTypeChangedIff` | index.js:75-80 | the reply type differs from the inbound type if and only if the second segment is exactly `get-update`; a type without `.` or with `get-update` elsewhere is answered under itself |
| `ReplyTypes.ReplyTypeIdempotent` | index.js:75-80 | rewriting a reply type again changes nothing |
| `ReplyTypes.SegmentsOfTwoPlusTail` | index.js:76 | `ns.seg` followed by an empty or `.`-led tail splits into `ns`, `seg` and the segments of the tail |
| `ReplyTypes.ReplyTypeOfRequest` | index.js:75-80 | on characters: `ns` + `.get-update` + an empty or `.`-led tail is answered as `ns` + `.update` + the same tail |
| `ReplyTypes.ReplyTypeOfOtherRequest` | index.js:76-77 | `ns.seg…` with a second segment other than `get-update` is answered under itself |
| `ReplyTypeCases.ReplyTypeRequestExample` | index.js:75-80 | `chat.get-update` is answered as `chat.update` |
| `ReplyTypeCases.ReplyTypeInnerRequestExample` | index.js:75-80 | `a.get-update.b` is answered as `a.update.b` |
| `ReplyTypeCases.ReplyTypeSingleSegmentExample` | index.js:76-77 | `get-update` with no `.` is answered under itself |
| `ReplyTypeCases.ReplyTypeFirstSegmentExample` | index.js:76-77 | `get-update.chat` (get-update first) is answered under itself |
| `ReplyTypeCases.ReplyTypeThirdSegmentExample` | index.js:76-77 | `a.b.get-update` (get-update third) is answered under itself |
| `Lists.IndexOf` | index.js:52 | `indexOf` returns -1 exactly when the socket is absent, and otherwise the position of its first occurrence |
| `Lists.Splice` | index.js:53 | `splice(i, 1)` drops the element at `i` and keeps the others in order |
| `Lists.RemoveFirst` | index.js:52-53 | the `indexOf`/`splice` removal shortens the list by one exactly when the socket is present and introduces no new element (lemmas: `RemoveFirstAbsent`, `RemoveFirstPresent`, `RemoveFirstMultiset`) |
| `Lists.RemoveFirstAbsent` | index.js:52-53 | removing an absent socket leaves the list unchanged, so a repeated disconnect is a no-op |
| `Lists.RemoveFirstPresent` | index.js:52-53 | removing a socket takes out exactly its first occurrence and keeps what precedes and follows it, in order |
| `Lists.RemoveFirstMultiset` | index.js:52-53 | removal takes one copy of the socket out of the list's contents when there is one, and nothing else |
| `Lists.RemoveFirstKeepsOthers` | index.js:52-53 | every other socket is in the list after removal exactly when it was before |
| `Lists.RemoveFirstDistinct` | index.js:109-110 | in a duplicate-free list removal takes the socket out entirely, keeps the list duplicate-free, and a second removal changes nothing |
| `Lists.RemoveFirstAfterPush` | index.js:106-111 | removing a socket just pushed onto a list that did not hold it restores the list |
| `Protocol.DataArg` | index.js:87 | an undefined `data` is passed on as `undefined`, a defined one unchanged |
| `Protocol.Dispatch` | index.js:70-89 | one event named after the message type with two arguments. A system event gets `(data, connection)` and no callback. Any other event gets `(payload, reply callback bound to the type and socket)`, with the callback as payload when `data` is undefined |
| `Protocol.SendEnvelope` | index.js:81-82 | at most one output, to the socket, carrying the envelope unchanged: via `send` when the socket has it, via `write` of the serialised envelope when it has only `write`, none when it has neither |
| `Protocol.Invoke` | index.js:73-83 | invoking a callback sends at most one envelope, only to its own socket, with the data as given. A reply carries the rewritten reply type. A `get-events` answer is one `available-events` envelope, sent over `send` for socket.io and `write` for TCP |
| `Protocol.DispatchThenReply` | index.js:70-89 | for a non-system message, invoking the callback in the emitted event sends exactly one envelope with the rewritten type and the given data back to the originating socket |
| `Protocol.InvokeIgnoresError` | index.js:73-82 | the callback's `error` argument has no effect on what is sent |
| `Protocol.GetUpdateScenario` | index.js:70-89 | for every namespace `ns` without `.` (`chat` among them), `ns.get-update` without data is dispatched with the callback as payload, and answering `("", {count: 3})` sends `{type: "ns.update", data: {count: 3}}` |
| `Protocol.ApplicationEventScenario` | index.js:70-89 | `room.create` with `{name: "x"}` reaches its handler as `({name: "x"}, callback)`, and `callback(null, {id: 1})` sends `room.create` with `{id: 1}` to the originating socket |
| `Protocol.SystemEventScenario` | index.js:86-87 | with `subscribe` a system event, `{type: "subscribe", data: "room1"}` is emitted as `("room1", connection)` |
| `Server.Registry.Add` | index.js:36 | push appends the socket to its own kind's list and leaves the other list alone |
| `Server.Registry.Remove` | index.js:52-53 | disconnect removes the socket's first occurrence from its own kind's list and leaves the other list alone |
| `Server.AddKeepsValid` | index.js:93-94 | registering a not-yet-registered socket keeps every connection registered once under one kind, and holds the new one exactly once, under its own kind only |
| `Server.RemoveKeepsValid` | index.js:49-54 | removal keeps every connection registered once, leaves the socket out of its kind's list and keeps every other socket where it was |
| `Server.RemoveUndoesAdd` | index.js:106-111 | the disconnect of a newly connected socket restores the registry it joined |
| `Server.SocketServer.constructor` | index.js:11-14 | a new server has empty `ws` and `tcp` lists, an empty event log and no output |
| `Server.SocketServer.Emit` | index.js:50 | an emission appends the event, with the current registry, to the log |
| `Server.SocketServer.Connect` | index.js:34-41 | `connect` is logged with the registry before the push. The socket is appended to its kind's list and the other list is unchanged. Then `get-events` is logged with a callback that answers this socket alone. The registry invariant is kept for a new socket |
| `Server.SocketServer.Disconnect` | index.js:49-54 | `disconnect(socket)` and then `unsubscribe('*', socket)` are logged, both with the registry before removal. Then the first occurrence is removed from the socket's kind's list, the other list is unchanged, and the socket is gone from its list when the invariant held |
| `Server.SocketServer.HandleMessage` | index.js:70-89 | appends exactly one event, the one `Dispatch` chooses, and changes nothing else |
| `Server.SocketServer.InvokeCallback` | index.js:73-83 | appends to the outbound calls exactly what `Invoke` sends; each invocation sends again |
| `Server.TwoConnectionsScenario` | index.js:49-54 | with distinct A and B connected, after A disconnects only B is registered, and the reply to a message from B still reaches B under the message's reply type |

## Left out

- Listener creation and binding (`new io()`, `server.listen`,
  `net.createServer`) and the `status` messages: transport library I/O
  outside the core.
- `waitForSocket`: it polls `httpServer.address()` every 500 ms on a
  timer, and that address comes from the transport library.
- `init`, the `forEach` over configured ports and the `subscribe`
  registration of `create-ws`/`create-tcp`: configuration wiring.
- `JSON.parse` of inbound text and `JSON.stringify` of outbound
  envelopes. Messages enter already parsed. A parse failure throws
  out of the handler in the source and is not modelled. A `WriteJson`
  output stands for the written serialisation of its envelope.
- The handlers behind the emitter and the order in which they run: they
  live outside this repository. The log records what is emitted. The
  registry snapshot in each entry records the registry at that emission,
  so the log shows whether it came before or after a push or a removal.
- `SocketServer.Emit`: it is a plain append, so Node's rule that
  `emit('error', …)` throws when no `error` listener is registered is not
  modelled. A non-system message typed `error` reaches that rule at
  index.js:85.
- The in-place assignment `message.data = callback`: no one reads the
  message object again after dispatch. The reply callback reads only
  `message.type`. The substitution is modelled as the emitted payload.
- `socket.on('message' | 'data' | 'disconnect' | 'end', …)`: installing
  transport listeners is left out. The handlers themselves are the methods
  `HandleMessage` and `Disconnect`.
- `settings.systemEvents` is read on every call in the source. Here it
  is a constant of the server, because nothing in the core changes it.
- JSON numbers are modelled as integers, since no floating point is
  needed for routing. Non-string message types, on which `split` would
  throw, are not modelled.
