# Walkie-talkie signaling relay, modelled in Dafny

The server in `server.js` is a rendezvous relay for WebRTC-style peers.
Clients connect over WebSocket and `join` a named room. After that the
relay forwards their negotiation messages (`offer`, `answer`,
`ice-candidate`) verbatim to the other members of the room. It forwards
their status messages (`talking`, `stopped`) as a bare `{type}`. It tells
members when a peer joins (`peer-joined`) or leaves (`peer-left`). A room
is created on its first join and deleted when its last member leaves.

The model has seven modules:

- `Messages` (messages.dfy): decoded JSON values with JavaScript
  truthiness, message records, and the notices the relay sends.
- `Outbox` (outbox.dfy): every `client.send` is a `Delivery` appended to an
  outbox. `Received` is what one connection gets, in order. `Fanout` is the
  `room.forEach(...)` broadcast loop.
- `Registry` (registry.dfy): the global `rooms` map and its two updates,
  registering a member and removing one with eager clean-up.
- `Protocol` (protocol.dfy): the reference definition of every event as a
  function from the state (registry plus each live connection's
  `currentRoom`) to the next state and one broadcast.
- `Properties` (properties.dfy): the invariants every event keeps, and what
  the relay promises about each message type.
- `Server` (server.dfy): class `Relay`, the imperative server. Its handlers
  update the `rooms` and `currentRoom` maps in place and append to the
  outbox. Each handler is proved to do exactly what `Protocol` says and to
  keep the invariants. Module `Scenario` in the same file walks a complete
  two-peer session through the class and proves what each peer's inbox
  holds at the end.
- `Findings` (findings.dfy): the code as written for room keys whose
  conversion to a string throws in a log line (see "## Findings").

Connections are `nat` ids. Which connections have `readyState === OPEN` is
decided by the transport. Each event therefore receives it as a set `open`.

Three behaviours of the code are easy to miss, and the model keeps them:

- A `join` accepts any `room` value: missing, `null`, `""`, `0`, `false` or
  anything else. With a falsy key the connection is registered under that
  key. The leave procedure ignores falsy keys, so such a room is never
  cleaned up (`Properties.FalsyRoomKeepsClosedMember`).
- A second `join` does not leave the first room. A connection can therefore
  be a member of several rooms (`Properties.RejoinKeepsOldMembership`). The
  invariant that does hold is weaker: a connection whose `currentRoom` is
  truthy is a member of that room (`Protocol.Session.Valid`).
- Only members that are open receive `peer-joined`, forwards and
  `peer-left`.

## Model

| member | source | states |
|---|---|---|
| `Messages.Bare` | server.js:75 | the status notice `{type: t}` has the single field `type`, holding `t` |
| `Outbox.Fanout` | server.js:47-51 | the `forEach` broadcast sends one copy of the notice to each member that is neither excluded nor closed, and nothing to anyone else |
| `Outbox.AppendsReceived` | server.js:109-113 | after a broadcast, each recipient's inbox has gained exactly one copy of the notice; every other inbox is unchanged |
| `Registry.AddMember` | server.js:37-42 | after registration the room exists, holds its earlier members (none if it was just created) plus the joiner, and every other room is unchanged |
| `Registry.RemoveMember` | server.js:104-119 | the room loses exactly the leaver; it survives iff someone else is still in it; no other room changes |
| `Registry.AddMemberKeepsRoomsNonEmpty` | server.js:37-42 | registration never leaves an empty room in the registry |
| `Registry.RemoveMemberKeepsRoomsNonEmpty` | server.js:116-119 | removal with clean-up never leaves an empty room in the registry |
| `Protocol.Connect` | server.js:23-24 | a new connection (a socket the server has never seen, so no room holds it) starts with `currentRoom` `null` and in no room; rooms and other connections are unchanged |
| `Protocol.HandleLeave` | server.js:101-121 | with a truthy, existing room: `peer-left` to exactly the remaining open members, the room loses exactly the leaver, it is deleted iff no one else is left, nothing else changes; otherwise a no-op; never touches `currentRoom` |
| `Protocol.Join` | server.js:33-52 | `currentRoom` becomes the requested key, the registry gains the joiner in that room, `peer-joined` goes to exactly the open earlier members other than the joiner |
| `Protocol.Forward` | server.js:57-78 | a forward never changes state; it reaches exactly the other open members of a truthy, existing current room, and nobody otherwise |
| `Protocol.Receive` | server.js:28-89 | the message handler keeps the set of live connections (its per-type behaviour is stated by the lemmas of `Properties`) |
| `Protocol.Close` | server.js:91-94 | closing leaves the registry and sends the broadcast that the leave procedure gives for the last `currentRoom`, and removes the connection |
| `Properties.ConnectKeepsValid` | server.js:23-24 | a new connection keeps both invariants |
| `Properties.LeaveKeepsOthersConsistent` | server.js:101-121 | the leave procedure for a connection's own room keeps every other connection's current room backed by its membership |
| `Properties.HandleLeaveKeepsRoomsNonEmpty` | server.js:101-121 | the leave procedure never leaves an empty room in the registry |
| `Properties.JoinKeepsValid` | server.js:35-42 | `join` keeps the registry free of empty rooms and keeps each truthy `currentRoom` backed by a membership |
| `Properties.LeaveMessageKeepsValid` | server.js:81-84 | a `leave` message (leave procedure, then `currentRoom = null`) keeps both invariants |
| `Properties.ReceiveKeepsValid` | server.js:28-89 | every inbound message keeps the registry free of empty rooms and keeps each truthy `currentRoom` backed by a membership |
| `Properties.CloseKeepsValid` | server.js:91-94 | closing a connection keeps both invariants |
| `Properties.JoinRegisters` | server.js:35-42 | after `join(R)`: `currentRoom` is R, the joiner is in `rooms[R]` with R's earlier members, R is added if absent, and no other room or connection changes |
| `Properties.JoinNotifiesPriorMembers` | server.js:46-51 | after `join`, each open member that was in the room before has exactly one more `peer-joined` in its inbox; every other inbox, the joiner's included, is unchanged |
| `Properties.RejoinKeepsOldMembership` | server.js:35-42 | joining another room leaves the connection a member of its previous room |
| `Properties.NegotiationForwardedVerbatim` | server.js:54-66 | offer/answer/ice-candidate: the unchanged record goes once to each other open member of a truthy, existing current room, and to nobody otherwise; the state never changes |
| `Properties.StatusForwardedBare` | server.js:68-79 | talking/stopped: only `{type}` is sent, other fields are dropped, to each other open member of the current room; nothing without one; the state never changes |
| `Properties.ForwardWithoutRoomIsSilent` | server.js:58 | with a falsy `currentRoom`, every forward is a complete no-op |
| `Properties.LeaveMessageRunsLeaveProcedure` | server.js:81-84 | a `leave` message leaves the registry and sends the broadcast of the leave procedure for the current room, then sets `currentRoom` to `null` |
| `Properties.LeavingTellsRoomOnce` | server.js:101-119 | when a connection leaves its truthy current room, by `leave` or by closing, each remaining open member gets exactly one more `peer-left` and every other inbox is unchanged; the room survives iff someone else is still in it |
| `Properties.LeaveWithoutRoomIsSilent` | server.js:81-102 | a `leave` or a close from a connection with no truthy, existing current room sends nothing and changes no room |
| `Properties.LeaveThenSilent` | server.js:81-94 | after `leave`, `currentRoom` is `null`; later forwards and leaves are no-ops; a later close sends no second `peer-left` and changes no room |
| `Properties.FalsyRoomKeepsClosedMember` | server.js:35-42 | a connection that joined a falsy room key stays registered there after it closes |
| `Properties.IgnoredMessagesAreNoOps` | server.js:29-32 | a frame that fails to decode, or has an unknown `type`, changes nothing and sends nothing |
| `Server.Relay.constructor` | server.js:19 | the relay starts with no rooms, no connections and nothing sent, and is valid |
| `Server.Relay.OnConnect` | server.js:23-24 | the class registers a connection no room holds exactly as `Protocol.Connect` says and keeps the invariants |
| `Server.Relay.HandleLeave` | server.js:101-121 | the in-place leave procedure leaves the state of `Protocol.HandleLeave` and appends exactly its broadcast to the outbox |
| `Server.Relay.Join` | server.js:35-51 | the in-place join leaves the state of `Protocol.Join` and appends exactly its `peer-joined` broadcast |
| `Server.Relay.Forward` | server.js:57-78 | the forwarding loop appends exactly the broadcast of `Protocol.Forward` and changes nothing else |
| `Server.Relay.Leave` | server.js:81-84 | the `leave` case runs the leave procedure of `Protocol.HandleLeave` for the current room, appends exactly its broadcast, then sets `currentRoom` to `null` |
| `Server.Relay.OnMessage` | server.js:28-89 | the message handler leaves the state of `Protocol.Receive`, keeps the invariants, and gives each connection exactly one more copy of the notice when it is a recipient |
| `Server.Relay.OnClose` | server.js:91-94 | the close handler leaves the state of `Protocol.Close` (the leave procedure's registry for the last `currentRoom`, without the connection), keeps the invariants, and appends exactly the leave procedure's `peer-left` broadcast |
| `Scenario.FirstJoinTellsNobody` | server.js:33-52 | the first peer to join a room is told nothing |
| `Scenario.SecondJoinTellsFirst` | server.js:46-51 | the second peer's join sends `peer-joined` to the first |
| `Scenario.OfferReachesPeer` | server.js:54-66 | an offer reaches the other peer unchanged |
| `Scenario.TalkingReachesPeer` | server.js:68-79 | `talking` reaches the other peer as a bare `{type}` |
| `Scenario.CloseTellsRemainingPeer` | server.js:91-121 | a disconnect sends `peer-left` to the remaining peer and leaves it alone in the room |
| `Findings.JoinAsWritten` | server.js:35-52 | as written, `join` registers the joiner whatever the key; when the key's string conversion throws, nobody is told |
| `Findings.HandleLeaveAsWritten` | server.js:101-106 | as written, the leave procedure throws exactly for a truthy, existing room whose key's string conversion throws; it then has removed only the leaver, keeps the room even if emptied, leaves every other room unchanged and sends nothing; otherwise it does exactly what `Protocol.HandleLeave` does |
| `Findings.LeaveMessageAsWritten` | server.js:81-88 | as written, a `leave` message has the registry, broadcast and throw of the leave procedure as written; when that throws, `currentRoom` is not reset, otherwise it becomes `null` |
| `Findings.CloseAsWritten` | server.js:91-94 | as written, closing has the registry, broadcast and throw of the leave procedure as written (a throw escapes the listener) and removes the connection |
| `Findings.AsWrittenAgreesOnPrintableKeys` | server.js:35-121 | for every key whose string conversion does not throw, `join` and the leave procedure as written do exactly what `Protocol.Join` and `Protocol.HandleLeave` do |
| `Findings.ClosingThrowingRoomLeavesItEmpty` | server.js:91-119 | join `{"toString": 0}` then close: as written the close throws and an empty room stays registered; `Protocol.Close` removes the room |
| `Findings.LeavingThrowingRoomBreaksBothInvariants` | server.js:81-119 | join `{"toString": 0}` then `leave`: as written `currentRoom` names a room that no longer holds the connection, and that room is empty |
| `Scenario.WalkieTalkieSession` | server.js:28-121 | a whole session on the class: A receives `[peer-joined, peer-left]`, B receives `[offer, {type: talking}]`, and the room ends with A alone |

## Left out

- The HTTP server and its plaintext answer (server.js:10-14), the `ws` server and its `connection` wiring (server.js:17, 23), and the `PORT` lookup (server.js:8). These are I/O over libraries outside the model.
- `JSON.parse` and `JSON.stringify`. Inbound frames arrive already decoded. `Malformed` stands for every frame whose handling throws before dispatch: text that is not JSON, and JSON `null`, whose `.type` access throws. Outbound messages are records.
- `client.send` and `readyState`. Sends are appended to an outbox. Whether a client is open is the parameter `open`. A `send` that throws part-way through a broadcast is not modelled.
- The order in which a broadcast visits a room's members (insertion order of the JavaScript `Set`). The model fixes no order. Broadcasts are specified per recipient: each recipient gets one copy.
- Room keys that are arrays or objects. A JavaScript `Map` compares these by identity, and every decoded message is a fresh object. The model compares them as values, so two joins with equal object keys share a room here but not in the server.
- `Protocol.Join`: models the log line at server.js:44 as never throwing. For a key whose string conversion throws, the code as written is modelled in `Findings` only.
- `Protocol.HandleLeave`: models the log lines at server.js:106 and 118 as never throwing, so `Properties.ReceiveKeepsValid` and `Properties.CloseKeepsValid` hold for the code as written only for keys whose string conversion does not throw (see "## Findings").
- Numbers are exact reals rather than IEEE doubles. Truthiness of `0` is the same, but room-key equality differs: `1` and `1.0000000000000001` decode to the same double and share a room in the server, yet are two rooms here; and a literal such as `1e400` decodes to `Infinity`, which `Num` cannot represent.
- Strings are sequences of Unicode scalar values, whereas `JSON.parse` yields strings of UTF-16 code units. A room key or payload holding a lone surrogate (such as `"\ud800"`) has no counterpart here. For every representable string, key equality and truthiness agree with the server.
- Logging and the `error` handler (server.js:96-98), which only logs.
- Concurrency. Node runs each handler to completion on one thread, so each event is one atomic method call.
- After `close` the server keeps the closure's `currentRoom`, but that connection never runs a handler again. The model drops the connection from its map of live connections instead.
- `Server.Relay.OnConnect`: requires an id that is neither live nor held by any room, even a room left behind by a closed connection. Ids are never reused because the transport creates a new socket object per connection.
- `Protocol.Receive`: its own contract only says that the set of live connections is kept. Each message type's behaviour is stated by the lemmas of `Properties`: `JoinRegisters`, `JoinNotifiesPriorMembers`, `NegotiationForwardedVerbatim`, `StatusForwardedBare`, `LeaveMessageRunsLeaveProcedure` and `IgnoredMessagesAreNoOps`.
- The termination of the process when an exception escapes the `close` listener. `Findings.CloseAsWritten` records only that the exception escapes.

## Findings

| source | as written | input that shows it | evidently intended | confidence | as-written member | corrected member |
|---|---|---|---|---|---|---|
| server.js:104-119 | the log line at 106 interpolates the room key; for an object key with its own `toString` field the conversion throws after `room.delete(ws)`, so the broadcast and the clean-up of the emptied room are skipped, and on close the exception escapes the `close` listener | one client sends `{"type":"join","room":{"toString":0}}`, then disconnects | logging does not change what the server does: the emptied room is deleted and the close completes | medium, not executed | `Findings.ClosingThrowingRoomLeavesItEmpty` | `Properties.CloseKeepsValid` |
| server.js:81-106 | on the `leave` path the same throw is caught by the handler's `catch`, so `currentRoom = null` never runs: the connection's `currentRoom` names an empty room that no longer holds it | one client sends `{"type":"join","room":{"toString":0}}`, then `{"type":"leave"}` | the room is deleted and `currentRoom` becomes `null` | medium, not executed | `Findings.LeavingThrowingRoomBreaksBothInvariants` | `Properties.LeaveMessageKeepsValid` |
