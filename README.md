# Room registry and relay of socket.js

socket.js is the socket.io server of a small multiplayer game. In memory it
keeps a table `rooms` that maps each room name to `{players, blocks, type}`,
and each connection carries its current room in `socket.roomName`. The
handlers `create_room`, `join_room`, the nine update channels and
`disconnect` change these two, and they emit messages to:

- the connection itself;
- the rest of a room;
- everyone.

This project models that registry in Dafny.

- `js_values.dfy` (module `JsValues`) covers the part of JavaScript's value model the handlers touch: values, property lookup, and `??`.
- `room_names.dfy` (module `RoomNames`) is `isValidRoomName`.
- `registry.dfy` (module `Registry`) is the registry as a state machine. A `State` holds the room table, every connection's current room, and the sequence of messages emitted so far. Each handler is one function, because Node runs each handler to completion. The module also defines the registry invariant:
  - every room key is a valid name;
  - no room is empty;
  - a connection's current room exists and lists it;
  - a room's players have that room as their current room.
- `registry_proofs.dfy` (module `RegistryProofs`) proves properties that relate handlers:
  - every handler keeps the invariant;
  - a room switch moves exactly one occupant;
  - re-joining resets the connection's entry;
  - `create_room` is idempotent on the table;
  - updates replace the stored entry;
  - a late message after `disconnect` is harmless;
  - a two-client session plays out as intended.
- `create_room_as_written.dfy` (module `AsWritten`) is `create_room` exactly as the code is written (see Findings).
- `socket_server.dfy` (module `SocketServer`) is the running server: class `RoomServer`.
  - Its fields `rooms`, `current` and `outbox` are updated in place, statement by statement, by one method per handler.
  - Each method is proved to reach the state that its `Registry` function describes, and to keep the invariant.

## Model

| member | source | states |
|---|---|---|
| JsValues.Member | socket.js:42-43 | optional property lookup `v?.key`: an object's own property, otherwise `undefined` |
| JsValues.Coalesce | socket.js:43 | `??` yields the fallback exactly when the value is null or undefined, otherwise the value |
| RoomNames.IsValidRoomName | socket.js:21-28 | a value is a valid room name exactly when it is a string that is non-empty and is neither `__proto__` nor `constructor` |
| RoomNames.ValidNameHasNoNameProperty | socket.js:40-42 | a value that passes validation has no `name` property, so `roomData.name` is undefined |
| Registry.ChannelNamed | socket.js:63-198 | dispatch by inbound event name finds the channel registered under that name, and finds none for every other name |
| Registry.ChannelTable | socket.js:63-198 | every registered inbound name dispatches back to its own channel; no two channels share an inbound name or an outbound event name; `removeBullet` and `updateBullet` share the field `bulletData` |
| Registry.RequestedKind | socket.js:43 | a missing, undefined or null `type` gives `"custom"`; any other `type` is used as given |
| Registry.Connect | socket.js:33-34 | a new connection is sent the room table, and nothing else changes |
| Registry.RemoveOccupant | socket.js:209-217 | the connection leaves the room, and the room is deleted exactly when the connection was its only player; other rooms are untouched |
| Registry.LeavePrevious | socket.js:230-248 | the leave step is a no-op unless the previous room exists and lists the connection; otherwise it removes the connection, deletes the room exactly when that empties it, and sends `removePlayer` to the rest of the room and then the room list to everyone |
| Registry.Enter | socket.js:250-273 | the target becomes the current room; the entry becomes the seed `{x:0, y:0, cRoom:name}`; other entries and rooms are unchanged; `initialState` (the room's players, including the joiner), `newPlayer` and the room list are sent, in that order |
| Registry.JoinRoom | socket.js:227-276 | after `joinRoom`, the target is current and seeded; every room other than the target and the room being left is unchanged; the earlier outbox is kept; the last three messages are the join messages |
| Registry.CreateRoom | socket.js:39-48 | an invalid name is a no-op; otherwise the result is `joinRoom` on the table as it was, or with the new room inserted empty, so the connection occupies the room, seeded; an existing room keeps its type, blocks and other entries and only gains the joiner; a new room holds just the joiner, with no blocks and the requested or default type; every room other than the target and the room being left is unchanged; the earlier outbox is kept and the last three messages are the join messages |
| Registry.JoinExisting | socket.js:53-58 | an invalid name, or a name with no room, changes nothing; otherwise the result is exactly `joinRoom` of that room: the target becomes the current room, the room keeps its type, blocks and other entries and gains only the seeded joiner, every room other than the target and the room being left is unchanged, the earlier outbox is kept and the last three messages are the join messages |
| Registry.Update | socket.js:63-198 | no-op unless the connection is a player of its current room; otherwise only its entry changes, to the payload; one message goes to the rest of the room: for the eight payload channels it carries, under the channel's event and field name, exactly the entry now stored; for `getRooms` it carries the whole room table after the update |
| Registry.Disconnect | socket.js:203-221 | with no current room, or a room that is gone, no room changes and nothing is sent; otherwise exactly that occupant is removed, the room is deleted exactly when it became empty, and `removePlayer` then the room list are sent |
| RegistryProofs.JoinRoomLeavesPrevious | socket.js:230-248 | switching rooms removes the connection from the previous room, which is deleted exactly when it was the connection's alone; five messages are sent if the connection was found there, starting with `removePlayer` to the previous room and the room list after the removal, three otherwise |
| RegistryProofs.RejoinResets | socket.js:230-270 | joining the current room skips the leave step, resets the entry to the seed and sends `newPlayer` again |
| RegistryProofs.JoinRoomKeepsValid | socket.js:227-276 | `joinRoom` restores the invariant, even when the target room was just created empty |
| RegistryProofs.JoinExistingKeepsValid | socket.js:53-58 | `join_room` keeps the invariant |
| RegistryProofs.InsertEmptyRoom | socket.js:42-43 | inserting a fresh, validly named, empty room breaks only the no-empty-rooms part of the invariant |
| RegistryProofs.CreateRoomKeepsValid | socket.js:39-48 | `create_room` keeps the invariant |
| RegistryProofs.UpdateKeepsValid | socket.js:63-198 | every update channel keeps the invariant |
| RegistryProofs.DisconnectKeepsValid | socket.js:203-221 | `disconnect` keeps the invariant |
| RegistryProofs.SwitchMovesOneOccupant | socket.js:230-262 | in a valid registry, a switch adds exactly one player to the target, removes exactly one from the previous room (deleting it exactly when it had one), and first sends `removePlayer` to the previous room |
| RegistryProofs.CreateRoomTwice | socket.js:39-48 | a second identical `create_room` from the same connection leaves the table and the current rooms as the first left them |
| RegistryProofs.UpdatesReplace | socket.js:70-71 | two updates in a row leave exactly the second payload, with no merge |
| RegistryProofs.NothingAfterDisconnect | socket.js:203-207 | after `disconnect`, an update from that connection, or a second `disconnect`, changes nothing; the second half rests on the model dropping `socket.roomName` with the socket (see Left out) |
| RegistryProofs.TwoClientScenario | socket.js:39-221 | for two distinct connections, in order: C1 creates a room and is alone in it; C2 joins, receives both players and is announced to C1; C1 leaves and C2 is told; C2 leaves and everyone gets an empty room list |
| AsWritten.JoinUndefined | socket.js:227-276 | `joinRoom(socket, undefined)`: the current room is cleared and the entry is written under the key "undefined"; it throws exactly when the leave step deleted that room |
| AsWritten.CreateRoomAsWritten | socket.js:39-48 | as written: every non-string payload, `{name, type}` objects included, is ignored; a valid string never becomes a room, and leaves the connection in room "undefined" with no current room; it throws exactly in the case above |
| AsWritten.CreateRoomAsWrittenLeaks | socket.js:40-47 | on a fresh server, the requested room is not created, the invariant is broken, and a later `disconnect` leaves the occupant behind; the intended handler creates the room |
| AsWritten.CreateRoomAsWrittenThrows | socket.js:236-255 | the throwing case is reachable: create, then `join_room("undefined")`, then create again |
| SocketServer.RoomServer.constructor | socket.js:19 | the server starts with no rooms, no connections and nothing sent, which satisfies the invariant |
| SocketServer.RoomServer.OnConnection | socket.js:33-34 | the in-place `connection` handler reaches `Registry.Connect` and keeps the invariant |
| SocketServer.RoomServer.DeleteOccupant | socket.js:209-217 | in place: delete the entry, tell the room, and delete the room if it is empty; equal to `Registry.RemoveOccupant` |
| SocketServer.RoomServer.LeaveRoom | socket.js:236-247 | the in-place leave step equals `Registry.LeavePrevious` |
| SocketServer.RoomServer.EnterRoom | socket.js:251-273 | the in-place second half of `joinRoom` equals `Registry.Enter` |
| SocketServer.RoomServer.JoinRoom | socket.js:227-276 | the in-place `joinRoom` equals `Registry.JoinRoom` |
| SocketServer.RoomServer.OnCreateRoom | socket.js:39-48 | the in-place `create_room` equals `Registry.CreateRoom` and keeps the invariant |
| SocketServer.RoomServer.OnJoinRoom | socket.js:53-58 | the in-place `join_room` equals `Registry.JoinExisting` and keeps the invariant |
| SocketServer.RoomServer.OnUpdate | socket.js:63-198 | the in-place update handler equals `Registry.Update` and keeps the invariant |
| SocketServer.RoomServer.RemoveConnection | socket.js:206-220 | the in-place steps of `disconnect` equal `Registry.Disconnect` |
| SocketServer.RoomServer.OnDisconnect | socket.js:203-221 | the in-place `disconnect` equals `Registry.Disconnect` and keeps the invariant |

## Left out

- The express and http server, CORS, and `http.listen` (socket.js:1-6 and 278-280) are I/O set-up.
- `socket.join` and `socket.leave`, and the exception the try/catch swallows, belong to the transport. A message to a room is recorded by its target (the room's group, without the sender); the group membership itself is not tracked.
- `console.log` lines have no effect on the state.
- Concurrency: Node runs each handler to completion, so each handler is one atomic step.
- Payload contents and `blocks` are stored and copied, never interpreted.
  - A payload is an object's own properties.
  - `{...data}` of a primitive or an array, and the copy-versus-alias distinction, are not modelled.
  - Numbers are integers and there are no arrays, since payloads are never interpreted: client values such as `{x, y, angle}` may hold fractions or arrays, which `JsValue` cannot represent.
- The null-prototype `rooms` object: a Dafny map has no prototype. Only the reserved-name check remains.
- Registry.Disconnect: the connection's `socket.roomName` is dropped from the state, because the socket object goes away with the connection. The code never clears it.
- AsWritten.JoinUndefined: `socket.to(undefined)` is recorded as a message to the transport's group filed under `undefined`. What socket.io then delivers is not modelled.
- AsWritten.JoinUndefined: the handler's throw is recorded as no resulting state. What the process does with the uncaught TypeError, and the writes made before it, are not modelled.
- SocketServer.RoomServer: the class runs the intended `create_room` (module Registry). The as-written handler is modelled on values only, in module AsWritten.

## Findings

| source | as written | input that shows it | evidently intended | confidence | as-written member | corrected member |
|---|---|---|---|---|---|---|
| socket.js:40-47 | `create_room` validates the whole payload as a room name, then keys the table and calls `joinRoom` with the payload's `name` property. A string payload has no such property, so every accepted request creates room "undefined", joins it with an undefined name, and leaves the connection where no update or `disconnect` finds it; a `{name, type}` payload is always rejected | `create_room("lobby")` on a fresh server: no room "lobby", the connection sits in room "undefined" with no current room, and survives its own `disconnect`; `create_room({name: "lobby"})` does nothing | validate `roomData.name`, then create room `roomData.name` of type `roomData.type ?? "custom"` and join it | high, not executed | AsWritten.CreateRoomAsWritten, AsWritten.CreateRoomAsWrittenLeaks | Registry.CreateRoom, RegistryProofs.CreateRoomKeepsValid |
